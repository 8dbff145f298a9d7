/** The operations' steps as the driver performs them, one after another:
    each operation's sequence of steps written as a chain the driver walks,
    and the proof that walking the chain is running the sequence. */
module Walks {
  import opened Wrappers
  import opened Enums
  import opened Errors
  import opened AtCommands
  import opened Exchange
  import opened Budget
  import opened Registry
  import opened Operations

  /** A single step is a chain of one. */
  lemma SingleChain(step: Step)
    ensures Chain([step]) == Then(step, Done)
  {
    assert [step][1..] == [];
  }

  /** The chain of a sequence of at least four steps, four levels down. */
  lemma ChainFour(steps: seq<Step>)
    requires |steps| >= 4
    ensures Chain(steps) == Then(steps[0], Then(steps[1], Then(steps[2], Then(steps[3], Chain(steps[4..])))))
  {
    assert steps[1..][1..][1..][1..] == steps[4..];
    assert Chain(steps[3..]) == Then(steps[3], Chain(steps[4..])) by {
      assert steps[3..][0] == steps[3] && steps[3..][1..] == steps[4..];
    }
    assert Chain(steps[2..]) == Then(steps[2], Chain(steps[3..])) by {
      assert steps[2..][0] == steps[2] && steps[2..][1..] == steps[3..];
    }
    assert Chain(steps[1..]) == Then(steps[1], Chain(steps[2..])) by {
      assert steps[1..][0] == steps[1] && steps[1..][1..] == steps[2..];
    }
  }

  /** A single step run after `log` is walking its chain. */
  lemma SingleRuns(step: Step, inbox: seq<string>, log: seq<Event>)
    ensures After(log, Run([step], inbox)) == ExecPlan(Then(step, Done), inbox, log)
  {
    SingleChain(step);
    ChainRun([step], inbox, log);
  }

  // ---------------------------------------------------------------------------
  // pdp_context_define
  // ---------------------------------------------------------------------------

  /** The define steps as the driver walks them. */
  function DefineWalk(cgdcont: string, ip: bool, echo: string): Plan {
    var confirm := Then(Expecting(ApnQuery, echo, ApnNotConfirmed), Done);
    Then(DisableRfStep, Then(Expecting(cgdcont, "OK", DefineRejected), Then(EnableRfStep,
      if ip then Then(Expecting(AttachQuery, Attached, NotAttached), confirm) else confirm)))
  }

  lemma DefineChain(cgdcont: string, ip: bool, echo: string)
    ensures Chain(DefineSteps(cgdcont, ip, echo)) == DefineWalk(cgdcont, ip, echo)
  {
    var confirm := [Expecting(ApnQuery, echo, ApnNotConfirmed)];
    assert Chain(confirm) == Then(confirm[0], Chain([]));
    var checks := (if ip then [Expecting(AttachQuery, Attached, NotAttached)] else []) + confirm;
    if ip {
      assert checks[1..] == confirm;
      assert Chain(checks) == Then(checks[0], Chain(confirm));
    } else {
      assert checks == confirm;
    }
    var steps := DefineSteps(cgdcont, ip, echo);
    assert steps[1..][1..][1..] == checks;
    assert Chain(steps[1..][1..]) == Then(EnableRfStep, Chain(checks));
    assert Chain(steps[1..]) == Then(steps[1], Chain(steps[1..][1..]));
  }

  /** Once the arguments pass the gate, `pdp_context_define` on the channel
      is the walk of its steps. */
  lemma DefineWalkRuns(id: int, apn: string, s: DataService, inbox: seq<string>, log: seq<Event>)
    requires DefineGate(id, apn).None?
    ensures After(log, DefineSpec(id, apn, s, inbox)) ==
            ExecPlan(DefineWalk(CgdcontCommand(id, s, apn), IsIp(s), ApnEcho(id, apn)), inbox, log)
  {
    DefineChain(CgdcontCommand(id, s, apn), IsIp(s), ApnEcho(id, apn));
    ChainRun(DefinePlan(id, apn, s), inbox, log);
  }


  // ---------------------------------------------------------------------------
  // _put_file_in_flash and pdp_context_configure_ssl
  // ---------------------------------------------------------------------------

  /** The upload steps followed by `next`. */
  function PutFileWalk(size: nat, flashName: string, next: Plan): Plan {
    Then(Expecting(FsInit, "OK", FsInitFailed),
    Then(Expecting(CfswfileCommand(flashName, size), "DOWNLOAD", DownloadNotOpened),
    Then(Stream(size, UploadWait(size), NothingOrOk, DownloadFailed),
    Then(Expecting(FsTerm, "OK", FsTermFailed), next))))
  }

  lemma PutFileChain(size: nat, flashName: string, rest: seq<Step>)
    ensures Chain(PutFilePlan(size, flashName) + rest) == PutFileWalk(size, flashName, Chain(rest))
  {
    var steps := PutFilePlan(size, flashName) + rest;
    ChainFour(steps);
    assert steps[4..] == rest;
  }

  /** The configuration steps after the clock check: the conversions. */
  function ConvertWalk(): Plan {
    Then(Expecting(ConvertCa, "OK", CaConvertFailed), Then(Expecting(ConvertClient, "OK", ClientConvertFailed), Done))
  }

  /** The clock check, then the three uploads, then the conversions. */
  function SslWalk(caSize: nat, certSize: nat, keySize: nat): Plan {
    Then(Exchange(ClockQuery, DefaultSettleMs, AnyLineContains(ClockSynced), ClockNotSynced),
      PutFileWalk(caSize, CaFlashName, PutFileWalk(certSize, CertFlashName, PutFileWalk(keySize, KeyFlashName, ConvertWalk()))))
  }

  lemma SslChain(caSize: nat, certSize: nat, keySize: nat)
    ensures Chain(SslPlan(caSize, certSize, keySize)) == SslWalk(caSize, certSize, keySize)
  {
    var converts := [Expecting(ConvertCa, "OK", CaConvertFailed), Expecting(ConvertClient, "OK", ClientConvertFailed)];
    assert converts == [converts[0]] + [converts[1]];
    SingleChain(converts[1]);
    SingleChain(converts[0]);
    ChainAppend([converts[0]], [converts[1]]);
    var keyPart := PutFilePlan(keySize, KeyFlashName) + converts;
    var certPart := PutFilePlan(certSize, CertFlashName) + keyPart;
    var caPart := PutFilePlan(caSize, CaFlashName) + certPart;
    var clock := Exchange(ClockQuery, DefaultSettleMs, AnyLineContains(ClockSynced), ClockNotSynced);
    assert SslPlan(caSize, certSize, keySize) == [clock] + caPart;
    assert ([clock] + caPart)[1..] == caPart;
    PutFileChain(keySize, KeyFlashName, converts);
    PutFileChain(certSize, CertFlashName, keyPart);
    PutFileChain(caSize, CaFlashName, certPart);
  }

  /** Once the checks pass, `pdp_context_configure_ssl` on the channel is the
      walk of its steps. */
  lemma SslWalkRuns(contexts: Contexts, active: Option<int>, ca: Option<nat>, cert: Option<nat>, key: Option<nat>,
                    inbox: seq<string>, log: seq<Event>)
    requires active.Some? ==> active.value in contexts
    requires SslGate(contexts, active, ca, cert, key).None?
    ensures After(log, SslSpec(contexts, active, ca, cert, key, inbox)) ==
            ExecPlan(SslWalk(ca.value, cert.value, key.value), inbox, log)
  {
    SslChain(ca.value, cert.value, key.value);
    ChainRun(SslPlan(ca.value, cert.value, key.value), inbox, log);
  }

  // ---------------------------------------------------------------------------
  // MQTT
  // ---------------------------------------------------------------------------

  /** The four `+SMCONF` settings followed by `next`. */
  function MqttConfigWalk(url: string, port: int, clientId: string, keepalive: int, next: Plan): Plan {
    Then(Expecting(SmconfUrl(url, port), "OK", UrlRejected),
    Then(Expecting(SmconfKeepalive(keepalive), "OK", KeepaliveRejected),
    Then(Expecting(SmconfCleanSession, "OK", CleanSessionRejected),
    Then(Expecting(SmconfClientId(clientId), "OK", ClientIdRejected), next))))
  }

  lemma MqttConfigChain(url: string, port: int, clientId: string, keepalive: int, rest: seq<Step>)
    ensures Chain(MqttConfigPlan(url, port, clientId, keepalive) + rest) ==
            MqttConfigWalk(url, port, clientId, keepalive, Chain(rest))
  {
    var steps := MqttConfigPlan(url, port, clientId, keepalive) + rest;
    ChainFour(steps);
    assert steps[4..] == rest;
  }

  /** Once the session check passes, `mqtt_connect` on the channel is the walk
      of the settings, followed by the connection without SSL, or by the
      `TypeError` with SSL once the settings pass. */
  lemma MqttConnectWalkRuns(contexts: Contexts, active: Option<int>, url: string, port: int,
                            clientId: string, keepalive: int, ssl: bool, inbox: seq<string>, log: seq<Event>)
    requires active.Some? ==> active.value in contexts
    requires SessionGate(contexts, active, NoValidContext, NoValidAddress).None?
    ensures var spec := After(log, MqttConnectSpec(contexts, active, url, port, clientId, keepalive, ssl, inbox));
            if ssl then
              var t := ExecPlan(MqttConfigWalk(url, port, clientId, keepalive, Done), inbox, log);
              spec == if t.outcome.Pass? then Trace(Fail(SslArgumentsMissing), t.events, t.rest) else t
            else spec == ExecPlan(MqttConfigWalk(url, port, clientId, keepalive, Then(ConnectStep, Done)), inbox, log)
  {
    var config := MqttConfigPlan(url, port, clientId, keepalive);
    var c := Run(config, inbox);
    if ssl {
      ConfigWalkRuns(url, port, clientId, keepalive, inbox, log);
    } else {
      ConnectWalkRuns(url, port, clientId, keepalive, inbox, log);
      RunAppend(config, [ConnectStep], inbox);
      if c.outcome.Pass? {
        var d := Run([ConnectStep], c.rest);
        assert log + (c.events + d.events) == (log + c.events) + d.events;
      }
    }
  }

  /** The walk of the four settings is running them. */
  lemma ConfigWalkRuns(url: string, port: int, clientId: string, keepalive: int, inbox: seq<string>, log: seq<Event>)
    ensures After(log, Run(MqttConfigPlan(url, port, clientId, keepalive), inbox)) ==
            ExecPlan(MqttConfigWalk(url, port, clientId, keepalive, Done), inbox, log)
  {
    var config := MqttConfigPlan(url, port, clientId, keepalive);
    MqttConfigChain(url, port, clientId, keepalive, []);
    assert config + [] == config;
    ChainRun(config, inbox, log);
  }

  /** The walk of the four settings and the connection is running them. */
  lemma ConnectWalkRuns(url: string, port: int, clientId: string, keepalive: int, inbox: seq<string>, log: seq<Event>)
    ensures After(log, Run(MqttConfigPlan(url, port, clientId, keepalive) + [ConnectStep], inbox)) ==
            ExecPlan(MqttConfigWalk(url, port, clientId, keepalive, Then(ConnectStep, Done)), inbox, log)
  {
    MqttConfigChain(url, port, clientId, keepalive, [ConnectStep]);
    SingleChain(ConnectStep);
    ChainRun(MqttConfigPlan(url, port, clientId, keepalive) + [ConnectStep], inbox, log);
  }


  /** The publish command and the payload. */
  function PublishWalk(topic: string, payload: string, qos: int, retain: bool): Plan {
    Then(Exchange(SmpubCommand(topic, |payload|, qos, retain), DefaultSettleMs, Line(">"), NoPrompt),
    Then(Stream(Utf8Length(payload), PublishWait(|payload|), NothingOrOk, PublishFailed), Done))
  }

  lemma PublishWalkRuns(topic: string, payload: string, qos: int, retain: bool, inbox: seq<string>, log: seq<Event>)
    ensures After(log, Run(PublishPlan(topic, payload, qos, retain), inbox)) ==
            ExecPlan(PublishWalk(topic, payload, qos, retain), inbox, log)
  {
    var steps := PublishPlan(topic, payload, qos, retain);
    assert steps == [steps[0]] + [steps[1]];
    SingleChain(steps[1]);
    ChainAppend([steps[0]], [steps[1]]);
    SingleChain(steps[0]);
    ChainRun(steps, inbox, log);
  }
}
