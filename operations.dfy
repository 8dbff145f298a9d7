/** The driver's operations as sequences of steps over the channel: which
    commands each sends, what each requires of the responses, and which error
    each check raises. The `...Spec` functions give the whole effect of an
    operation on the channel, including the argument and state checks made
    before the first command. */
module Operations {
  import opened Wrappers
  import opened Text
  import opened Framing
  import opened Enums
  import opened Errors
  import opened AtCommands
  import opened Exchange
  import opened Budget
  import opened Registry

  // ---------------------------------------------------------------------------
  // RF control
  // ---------------------------------------------------------------------------

  /** `disable_rf`: `AT+CFUN=0`, answered by `OK` and `+CPIN: NOT READY`. */
  const DisableRfStep: Step := Exchange(RfOff, DefaultSettleMs, Lines("OK", SimNotReady), RfDisableFailed)

  /** `enable_rf`: `AT+CFUN=1`, answered by `OK` and `+CPIN: READY`. */
  const EnableRfStep: Step := Exchange(RfOn, DefaultSettleMs, Lines("OK", SimReady), RfEnableFailed)

  /** A command whose response must hold the line `line`, or `err` is raised. */
  function Expecting(cmd: string, line: string, err: Error): Step {
    Exchange(cmd, DefaultSettleMs, Line(line), err)
  }

  // ---------------------------------------------------------------------------
  // pdp_context_define
  // ---------------------------------------------------------------------------

  /** The steps of `pdp_context_define` after its argument checks: RF off,
      the context definition, RF on, the attach check for IP services, and
      the APN check. */
  function DefinePlan(id: int, apn: string, s: DataService): seq<Step> {
    DefineSteps(CgdcontCommand(id, s, apn), IsIp(s), ApnEcho(id, apn))
  }

  /** The same steps with the definition command `cgdcont` already built,
      `ip` telling whether the attach check is due, and `echo` the line the
      APN query must return. */
  function DefineSteps(cgdcont: string, ip: bool, echo: string): seq<Step> {
    [DisableRfStep, Expecting(cgdcont, "OK", DefineRejected), EnableRfStep]
    + (if ip then [Expecting(AttachQuery, Attached, NotAttached)] else [])
    + [Expecting(ApnQuery, echo, ApnNotConfirmed)]
  }

  /** The whole of `pdp_context_define` on the channel. */
  function DefineSpec(id: int, apn: string, s: DataService, inbox: seq<string>): Trace {
    match DefineGate(id, apn)
    case Some(e) => Trace(Fail(e), [], inbox)
    case None => Run(DefinePlan(id, apn, s), inbox)
  }

  // ---------------------------------------------------------------------------
  // pdp_context_configure and pdp_context_activate
  // ---------------------------------------------------------------------------

  /** The whole of `pdp_context_configure` on the channel. */
  function ConfigureSpec(contexts: Contexts, id: int, apn: string, s: Option<DataService>,
                         username: string, password: string, auth: Option<AuthType>,
                         inbox: seq<string>): Trace
  {
    match ConfigureGate(contexts, id)
    case Some(e) => Trace(Fail(e), [], inbox)
    case None => Run([Expecting(ConfigureCommand(contexts, id, apn, s, username, password, auth), "OK",
                                ConfigureRejected)], inbox)
  }

  /** The end of an operation that also changes the context record. */
  datatype Transition = Transition(trace: Trace, contexts: Contexts, active: Option<int>)

  /** The whole of `pdp_context_activate`: the activation command, whose
      confirmation is only logged when missing, then, for an IP context that
      is not being deactivated, the `+CNACT` read command and the record
      update; for the others the record update alone. */
  function ActivateSpec(contexts: Contexts, active: Option<int>, id: int, action: PdpAction,
                        inbox: seq<string>): Transition
  {
    match ActivateGate(contexts, id)
    case Some(e) => Transition(Trace(Fail(e), [], inbox), contexts, active)
    case None =>
      var sent := [Command(CnactCommand(id, action), DefaultSettleMs)];
      var afterCommand := Advance(inbox);
      if QueriesTable(contexts[id], action) then
        var events := sent + [Command(CnactQuery, DefaultSettleMs)];
        match ActivateEffect(contexts, active, id, action, Response(afterCommand))
        case Err(e) => Transition(Trace(Fail(e), events, Advance(afterCommand)), contexts, active)
        case Ok(next) => Transition(Trace(Pass, events, Advance(afterCommand)), next.0, next.1)
      else
        match ActivateEffect(contexts, active, id, action, [])
        case Err(e) => Transition(Trace(Fail(e), sent, afterCommand), contexts, active)
        case Ok(next) => Transition(Trace(Pass, sent, afterCommand), next.0, next.1)
  }

  // ---------------------------------------------------------------------------
  // Certificates: _put_file_in_flash and pdp_context_configure_ssl
  // ---------------------------------------------------------------------------

  /** The steps of `_put_file_in_flash` for a file of `size` bytes: open the
      flash file system, open the download, stream the file and wait for it,
      close the file system. */
  function PutFilePlan(size: nat, flashName: string): seq<Step> {
    [ Expecting(FsInit, "OK", FsInitFailed),
      Expecting(CfswfileCommand(flashName, size), "DOWNLOAD", DownloadNotOpened),
      Stream(size, UploadWait(size), NothingOrOk, DownloadFailed),
      Expecting(FsTerm, "OK", FsTermFailed) ]
  }

  /** The checks `pdp_context_configure_ssl` makes before any command: each
      file exists (`None` is a missing file, `Some(size)` an existing one of
      that size), then the session check. */
  function SslGate(contexts: Contexts, active: Option<int>,
                   ca: Option<nat>, cert: Option<nat>, key: Option<nat>): Option<Error>
    requires active.Some? ==> active.value in contexts
  {
    if ca.None? then Some(FileNotFound(CaFile))
    else if cert.None? then Some(FileNotFound(CertFile))
    else if key.None? then Some(FileNotFound(KeyFile))
    else SessionGate(contexts, active, NoActiveContext, NoIpAddress)
  }

  /** The steps of `pdp_context_configure_ssl` after its checks: the clock
      check, the three uploads, and the two conversions. */
  function SslPlan(caSize: nat, certSize: nat, keySize: nat): seq<Step> {
    [Exchange(ClockQuery, DefaultSettleMs, AnyLineContains(ClockSynced), ClockNotSynced)]
    + PutFilePlan(caSize, CaFlashName)
    + PutFilePlan(certSize, CertFlashName)
    + PutFilePlan(keySize, KeyFlashName)
    + [Expecting(ConvertCa, "OK", CaConvertFailed), Expecting(ConvertClient, "OK", ClientConvertFailed)]
  }

  function SslSpec(contexts: Contexts, active: Option<int>,
                   ca: Option<nat>, cert: Option<nat>, key: Option<nat>, inbox: seq<string>): Trace
    requires active.Some? ==> active.value in contexts
  {
    match SslGate(contexts, active, ca, cert, key)
    case Some(e) => Trace(Fail(e), [], inbox)
    case None => Run(SslPlan(ca.value, cert.value, key.value), inbox)
  }

  // ---------------------------------------------------------------------------
  // MQTT
  // ---------------------------------------------------------------------------

  /** The four `+SMCONF` settings of `mqtt_connect`. */
  function MqttConfigPlan(url: string, port: int, clientId: string, keepalive: int): seq<Step> {
    [ Expecting(SmconfUrl(url, port), "OK", UrlRejected),
      Expecting(SmconfKeepalive(keepalive), "OK", KeepaliveRejected),
      Expecting(SmconfCleanSession, "OK", CleanSessionRejected),
      Expecting(SmconfClientId(clientId), "OK", ClientIdRejected) ]
  }

  const ConnectStep: Step := Expecting(SmConnect, "OK", ConnectFailed)

  /** The whole of `mqtt_connect`: the session check, the settings, and then
      either the call `pdp_context_configure_ssl()`, which lacks its three
      arguments and raises `TypeError`, or, without SSL, the connection. */
  function MqttConnectSpec(contexts: Contexts, active: Option<int>, url: string, port: int,
                           clientId: string, keepalive: int, ssl: bool, inbox: seq<string>): Trace
    requires active.Some? ==> active.value in contexts
  {
    match SessionGate(contexts, active, NoValidContext, NoValidAddress)
    case Some(e) => Trace(Fail(e), [], inbox)
    case None =>
      var config := Run(MqttConfigPlan(url, port, clientId, keepalive), inbox);
      if config.outcome.Fail? then config
      else if ssl then Trace(Fail(SslArgumentsMissing), config.events, config.rest)
      else After(config.events, Run([ConnectStep], config.rest))
  }

  const DisconnectStep: Step := Expecting(SmDisconnect, "OK", DisconnectFailed)

  function SubscribeStep(topic: string, qos: int): Step {
    Expecting(SmsubCommand(topic, qos), "OK", SubscribeFailed)
  }

  function UnsubscribeStep(topic: string): Step {
    Expecting(SmunsubCommand(topic), "OK", UnsubscribeFailed)
  }

  /** The number of bytes `payload.encode()` gives: the UTF-8 length. */
  function Utf8Length(s: string): (n: nat)
    ensures n >= |s|
    decreases |s|
  {
    if s == [] then 0
    else
      var c := s[0] as int;
      (if c < 0x80 then 1 else if c < 0x800 then 2 else if c < 0x10000 then 3 else 4) + Utf8Length(s[1..])
  }

  /** The steps of `mqtt_publish` as written: the publish command declaring
      the payload's length in characters, the prompt check, the payload
      streamed and waited for; then anything waiting is read with
      `.encode()` called on bytes, which raises `AttributeError`. */
  function PublishPlanAsWritten(topic: string, payload: string, qos: int, retain: bool): seq<Step> {
    [ Exchange(SmpubCommand(topic, |payload|, qos, retain), DefaultSettleMs, Line(">"), NoPrompt),
      Stream(Utf8Length(payload), PublishWait(|payload|), NothingAtAll, ReplyNotText) ]
  }

  /** The steps of `mqtt_publish` as evidently intended: what is waiting
      after the payload is decoded, stripped and must contain `OK`. */
  function PublishPlan(topic: string, payload: string, qos: int, retain: bool): seq<Step> {
    [ Exchange(SmpubCommand(topic, |payload|, qos, retain), DefaultSettleMs, Line(">"), NoPrompt),
      Stream(Utf8Length(payload), PublishWait(|payload|), NothingOrOk, PublishFailed) ]
  }

  // ---------------------------------------------------------------------------
  // Properties of the plans
  // ---------------------------------------------------------------------------

  /** A silent modem fails every operation at its first check. */
  lemma SilentModemFailsFirstCheck(steps: seq<Step>)
    requires |steps| > 0 && steps[0].Exchange?
    ensures Run(steps, []).outcome == Fail(steps[0].err)
    ensures Run(steps, []).events == StepEvents(steps[0])
  {
    assert Response([]) == [] by {
      assert Reply([]) == "";
    }
  }

  /** With a silent modem, a definition with valid arguments fails because RF
      cannot be switched off, after sending only `AT+CFUN=0`. */
  lemma DefineWithSilentModem(id: int, apn: string, s: DataService)
    requires DefineGate(id, apn).None?
    ensures DefineSpec(id, apn, s, []) == Trace(Fail(RfDisableFailed), [Command(RfOff, DefaultSettleMs)], [])
  {
    SilentModemFailsFirstCheck(DefinePlan(id, apn, s));
  }

  /** With SSL requested, `mqtt_connect` never connects: it fails, at the
      latest once the four settings are made, and never sends `AT+SMCONN`. */
  lemma MqttConnectWithSslFails(contexts: Contexts, active: Option<int>, url: string, port: int,
                                clientId: string, keepalive: int, inbox: seq<string>)
    requires active.Some? ==> active.value in contexts
    ensures var t := MqttConnectSpec(contexts, active, url, port, clientId, keepalive, true, inbox);
            t.outcome.Fail? && Command(SmConnect, DefaultSettleMs) !in t.events
  {
    var plan := MqttConfigPlan(url, port, clientId, keepalive);
    var config := Run(plan, inbox);
    if SessionGate(contexts, active, NoValidContext, NoValidAddress).None? {
      SettingsDoNotConnect(url, port, clientId, keepalive);
      if config.outcome.Pass? {
        RunPasses(plan, inbox);
        PlannedEventsCommands(plan, SmConnect);
      } else {
        RunFails(plan, inbox);
        var i :| 0 <= i < |plan| && config.events == PlannedEvents(plan[..i + 1]);
        PlannedEventsCommands(plan[..i + 1], SmConnect);
      }
    }
  }

  /** The four settings are `+SMCONF` commands, none of them `AT+SMCONN`. */
  lemma SettingsDoNotConnect(url: string, port: int, clientId: string, keepalive: int)
    ensures var plan := MqttConfigPlan(url, port, clientId, keepalive);
            forall i :: 0 <= i < |plan| ==> plan[i].Exchange? && plan[i].cmd != SmConnect
  {
    var plan := MqttConfigPlan(url, port, clientId, keepalive);
    assert SmConnect[8] == 'N';
    assert plan[0].cmd[8] == 'F';
    assert plan[1].cmd[8] == 'F';
    assert plan[2].cmd[8] == 'F';
    assert plan[3].cmd[8] == 'F';
  }

  /** Steps none of which sends `cmd` never send it. */
  lemma {:induction false} PlannedEventsCommands(steps: seq<Step>, cmd: string)
    requires forall i :: 0 <= i < |steps| ==> steps[i].Exchange? && steps[i].cmd != cmd
    ensures forall settle :: Command(cmd, settle) !in PlannedEvents(steps)
    decreases |steps|
  {
    if steps != [] {
      assert forall i :: 0 <= i < |steps| - 1 ==> steps[1..][i] == steps[i + 1];
      PlannedEventsCommands(steps[1..], cmd);
    }
  }

  /** Activation, as a whole, keeps the record valid. */
  lemma ActivateSpecPreservesValid(contexts: Contexts, active: Option<int>, id: int, action: PdpAction,
                                   inbox: seq<string>)
    requires Valid(contexts, active)
    ensures var t := ActivateSpec(contexts, active, id, action, inbox);
            Valid(t.contexts, t.active)
  {
    if ActivateGate(contexts, id).None? {
      ActivatePreservesValid(contexts, active, id, action, Response(Advance(inbox)));
      ActivatePreservesValid(contexts, active, id, action, []);
    }
  }

  /** A command answered with well-formed lines that its check accepts passes. */
  lemma AnsweredWith(s: Step, lines: seq<string>)
    requires s.Exchange? && Accepts(s.check, lines)
    requires forall i :: 0 <= i < |lines| ==> WellFormedLine(lines[i])
    ensures Answers([s], [Transmit(lines)])
  {
    FrameTransmit(lines);
  }

  /** The lines the driver waits for are well formed as the modem sends them. */
  lemma OkWellFormed()
    ensures WellFormedLine("OK") && WellFormedLine(SimNotReady) && WellFormedLine(SimReady)
    ensures WellFormedLine(Attached) && WellFormedLine("DOWNLOAD") && WellFormedLine(">")
  {
    assert forall k :: 0 <= k < |SimNotReady| ==> !CrLfAt(SimNotReady, k);
  }

  /** The echo of the APN setting is a well-formed reply line when the APN
      holds no CR. */
  lemma ApnEchoWellFormed(id: int, apn: string)
    requires '\r' !in apn
    ensures WellFormedLine(ApnEcho(id, apn))
  {
    var l := ApnEcho(id, apn);
    assert l[0] == '+';
    assert l[|l| - 1] == '"';
    assert '\r' !in IntToDecimal(id);
    assert '\r' !in l;
  }

  /** The replies of a modem that answers a definition as the driver expects. */
  function DefineReplies(id: int, apn: string, s: DataService): seq<string> {
    [Transmit(["OK", SimNotReady]), Transmit(["OK"]), Transmit(["OK", SimReady])]
    + (if IsIp(s) then [Transmit([Attached, "OK"])] else [])
    + [Transmit([ApnEcho(id, apn), "OK"])]
  }

  /** A modem that answers every step of a definition as the driver expects
      lets it pass, with every planned command sent and one read consumed per
      command. */
  lemma DefineWithCooperativeModem(id: int, apn: string, s: DataService, rest: seq<string>)
    requires DefineGate(id, apn).None? && '\r' !in apn
    ensures DefineSpec(id, apn, s, DefineReplies(id, apn, s) + rest) == Trace(Pass, PlannedEvents(DefinePlan(id, apn, s)), rest)
  {
    OkWellFormed();
    ApnEchoWellFormed(id, apn);
    AnsweredWith(DisableRfStep, ["OK", SimNotReady]);
    AnsweredWith(Expecting(CgdcontCommand(id, s, apn), "OK", DefineRejected), ["OK"]);
    AnsweredWith(EnableRfStep, ["OK", SimReady]);
    AnswersAppend([DisableRfStep], [Transmit(["OK", SimNotReady])],
                  [Expecting(CgdcontCommand(id, s, apn), "OK", DefineRejected)], [Transmit(["OK"])]);
    var front := [DisableRfStep, Expecting(CgdcontCommand(id, s, apn), "OK", DefineRejected), EnableRfStep];
    var frontReplies := [Transmit(["OK", SimNotReady]), Transmit(["OK"]), Transmit(["OK", SimReady])];
    AnswersAppend(front[..2], frontReplies[..2], [EnableRfStep], [Transmit(["OK", SimReady])]);
    assert front[..2] + [EnableRfStep] == front && frontReplies[..2] + [Transmit(["OK", SimReady])] == frontReplies;
    var attach := if IsIp(s) then [Expecting(AttachQuery, Attached, NotAttached)] else [];
    var attachReplies := if IsIp(s) then [Transmit([Attached, "OK"])] else [];
    if IsIp(s) {
      AnsweredWith(attach[0], [Attached, "OK"]);
    }
    AnswersAppend(front, frontReplies, attach, attachReplies);
    var last := Expecting(ApnQuery, ApnEcho(id, apn), ApnNotConfirmed);
    AnsweredWith(last, [ApnEcho(id, apn), "OK"]);
    AnswersAppend(front + attach, frontReplies + attachReplies, [last], [Transmit([ApnEcho(id, apn), "OK"])]);
    RunScripted(DefinePlan(id, apn, s), DefineReplies(id, apn, s), rest);
  }

  /** A sequence of steps that is not empty always does something: its first
      step is performed whether it passes or not. */
  lemma RunRecordsFirstStep(steps: seq<Step>, inbox: seq<string>)
    requires steps != []
    ensures Run(steps, inbox).events != []
  {
  }

  /** The argument checks of `pdp_context_define` come before any command:
      it does nothing on the channel exactly when they reject it, and then
      leaves the script unread and raises the check's error. */
  lemma DefineChecksFirst(id: int, apn: string, s: DataService, inbox: seq<string>)
    ensures DefineSpec(id, apn, s, inbox).events == [] <==> DefineGate(id, apn).Some?
    ensures DefineGate(id, apn).Some? ==>
              DefineSpec(id, apn, s, inbox).rest == inbox
              && DefineSpec(id, apn, s, inbox).outcome == Fail(DefineGate(id, apn).value)
  {
    if DefineGate(id, apn).None? {
      RunRecordsFirstStep(DefinePlan(id, apn, s), inbox);
    }
  }

  /** The same for configuration and activation: nothing is sent for an
      undefined context, nor, by activation, for one not yet configured. */
  lemma ChecksPrecedeCommands(contexts: Contexts, active: Option<int>, id: int, apn: string,
                              service: Option<DataService>, username: string,
                              password: string, auth: Option<AuthType>, action: PdpAction,
                              inbox: seq<string>)
    ensures ConfigureSpec(contexts, id, apn, service, username, password, auth, inbox).events == []
            <==> id !in contexts
    ensures ActivateSpec(contexts, active, id, action, inbox).trace.events == []
            <==> ActivateGate(contexts, id).Some?
    ensures ActivateGate(contexts, id).Some? ==>
              ActivateSpec(contexts, active, id, action, inbox) ==
              Transition(Trace(Fail(ActivateGate(contexts, id).value), [], inbox), contexts, active)
  {
  }

  /** The same for the session operations: with SSL, nothing is sent when a
      certificate file is missing or no context is active with an address;
      `mqtt_connect` sends nothing exactly when the session check fails. */
  lemma SessionChecksPrecedeCommands(contexts: Contexts, active: Option<int>,
                                     ca: Option<nat>, cert: Option<nat>, key: Option<nat>,
                                     url: string, port: int, clientId: string, keepalive: int, ssl: bool,
                                     inbox: seq<string>)
    requires active.Some? ==> active.value in contexts
    ensures SslSpec(contexts, active, ca, cert, key, inbox).events == []
            <==> SslGate(contexts, active, ca, cert, key).Some?
    ensures MqttConnectSpec(contexts, active, url, port, clientId, keepalive, ssl, inbox).events == []
            <==> SessionGate(contexts, active, NoValidContext, NoValidAddress).Some?
  {
    if SslGate(contexts, active, ca, cert, key).None? {
      RunRecordsFirstStep(SslPlan(ca.value, cert.value, key.value), inbox);
    }
    if SessionGate(contexts, active, NoValidContext, NoValidAddress).None? {
      var plan := MqttConfigPlan(url, port, clientId, keepalive);
      RunRecordsFirstStep(plan, inbox);
      var config := Run(plan, inbox);
      if config.outcome.Pass? && !ssl {
        assert MqttConnectSpec(contexts, active, url, port, clientId, keepalive, ssl, inbox).events
               == config.events + Run([ConnectStep], config.rest).events;
      }
    }
  }

  /** The attach query is sent only in the definition of an IP service. */
  lemma AttachQueryOnlyForIp(id: int, apn: string, s: DataService, inbox: seq<string>)
    ensures forall settle :: Command(AttachQuery, settle) in DefineSpec(id, apn, s, inbox).events ==> IsIp(s)
  {
    if DefineGate(id, apn).None? && !IsIp(s) {
      var plan := DefinePlan(id, apn, s);
      assert |plan| == 4;
      assert forall i :: 0 <= i < |plan| ==> plan[i].Exchange? && plan[i].cmd != AttachQuery;
      var t := Run(plan, inbox);
      if t.outcome.Pass? {
        RunPasses(plan, inbox);
        PlannedEventsCommands(plan, AttachQuery);
      } else {
        RunFails(plan, inbox);
        var i :| 0 <= i < |plan| && t.events == PlannedEvents(plan[..i + 1]);
        PlannedEventsCommands(plan[..i + 1], AttachQuery);
      }
    }
  }

  /** The confirmation of the activation command is only logged: whatever
      the module answers to `+CNACT=`, with the `+APP PDP:` line or without
      it, activation goes on the same way. */
  lemma ActivateIgnoresConfirmation(contexts: Contexts, active: Option<int>, id: int, action: PdpAction,
                                    reply: string, rest: seq<string>)
    requires ActivateGate(contexts, id).None?
    ensures ActivateSpec(contexts, active, id, action, [Transmit([ActivationConfirmation(id, action)])] + rest)
            == ActivateSpec(contexts, active, id, action, [reply] + rest)
  {
    var a := [Transmit([ActivationConfirmation(id, action)])] + rest;
    var b := [reply] + rest;
    assert Advance(a) == rest && Advance(b) == rest;
  }

  /** Activating or deactivating a context of a non-IP service passes and
      leaves the record as it was; only the activation command is sent. */
  lemma ActivateNonIpChangesNothing(contexts: Contexts, active: Option<int>, id: int, action: PdpAction,
                                    inbox: seq<string>)
    requires ActivateGate(contexts, id).None? && !contexts[id].IsIpContext()
    ensures var t := ActivateSpec(contexts, active, id, action, inbox);
            t.trace.outcome == Pass && t.contexts == contexts && t.active == active
            && t.trace.events == [Command(CnactCommand(id, action), DefaultSettleMs)]
  {
  }

  /** A definition that fails for want of packet-service attachment is one of
      an IP service: the attach check is made for those alone. */
  lemma NotAttachedOnlyForIp(id: int, apn: string, s: DataService, inbox: seq<string>)
    requires DefineSpec(id, apn, s, inbox).outcome == Fail(NotAttached)
    ensures IsIp(s)
  {
    RunFails(DefinePlan(id, apn, s), inbox);
  }

  /** The acknowledgement `OK` sent after a payload. */
  const PayloadAck: string := "\r\nOK\r\n"

  lemma PayloadAckAccepted()
    ensures TailAccepts(NothingOrOk, PayloadAck)
    ensures !TailAccepts(NothingAtAll, PayloadAck)
  {
    StripPadded("\r\n", "OK", "\r\n");
    assert "\r\n" + "OK" + "\r\n" == PayloadAck;
    assert StartsWith("OK", "OK");
  }

  /** The replies of a modem that accepts an upload. */
  const PutFileReplies: seq<string> := [Transmit(["OK"]), Transmit(["DOWNLOAD"]), PayloadAck, Transmit(["OK"])]

  /** A modem that opens the download, acknowledges the file and accepts the
      other commands lets an upload pass. */
  lemma PutFileWithCooperativeModem(size: nat, flashName: string, rest: seq<string>)
    ensures Run(PutFilePlan(size, flashName), PutFileReplies + rest) == Trace(Pass, PlannedEvents(PutFilePlan(size, flashName)), rest)
  {
    PutFileAnswered(size, flashName);
    RunScripted(PutFilePlan(size, flashName), PutFileReplies, rest);
  }

  /** Each reply of the cooperative modem answers its step of the upload. */
  lemma PutFileAnswered(size: nat, flashName: string)
    ensures Answers(PutFilePlan(size, flashName), PutFileReplies)
  {
    var plan := PutFilePlan(size, flashName);
    OkWellFormed();
    AnsweredWith(plan[0], ["OK"]);
    AnsweredWith(plan[1], ["DOWNLOAD"]);
    AnsweredWith(plan[3], ["OK"]);
    PayloadAckAccepted();
    assert StepPasses(plan[2], [PayloadAck]);
    forall i | 0 <= i < |plan| ensures StepPasses(plan[i], [PutFileReplies[i]]) {
      assert i == 0 || i == 1 || i == 2 || i == 3;
    }
  }

  /** An upload streams the file and waits for its bits between opening the
      download and closing the file system. */
  lemma PutFileEvents(size: nat, flashName: string)
    ensures PlannedEvents(PutFilePlan(size, flashName))
            == [Command(FsInit, DefaultSettleMs), Command(CfswfileCommand(flashName, size), DefaultSettleMs),
                Upload(size), Pause(UploadWait(size)), Command(FsTerm, DefaultSettleMs)]
  {
    var plan := PutFilePlan(size, flashName);
    assert plan[3..][1..] == [];
    assert PlannedEvents(plan[3..]) == [Command(FsTerm, DefaultSettleMs)];
    assert plan[2..][1..] == plan[3..];
    assert PlannedEvents(plan[2..]) == [Upload(size), Pause(UploadWait(size))] + PlannedEvents(plan[3..]);
    assert plan[1..][1..] == plan[2..];
  }

  /** As written, a publish fails as soon as the modem acknowledges it: once
      `+SMPUB` has drawn the prompt, any reply waiting after the payload is
      read as bytes and `.encode()` is called on it. */
  lemma {:induction false} PublishAckFailsAsWritten(topic: string, payload: string, qos: int, retain: bool,
                                                    prompt: string, ack: string, rest: seq<string>)
    requires ">" in Response([prompt]) && ack != ""
    ensures Run(PublishPlanAsWritten(topic, payload, qos, retain), [prompt, ack] + rest).outcome == Fail(ReplyNotText)
  {
    var w := PublishPlanAsWritten(topic, payload, qos, retain);
    var inbox := [prompt, ack] + rest;
    assert Reply(inbox) == Reply([prompt]);
    assert Advance(inbox) == [ack] + rest;
    assert w == [w[0]] + [w[1]];
    RunFirst(w[0], [w[1]], inbox);
    RunFirst(w[1], [], Advance(inbox));
  }

  /** As intended, a publish passes when `+SMPUB` draws the prompt and the
      reply after the payload is empty or contains `OK`. */
  lemma {:induction false} PublishAckPasses(topic: string, payload: string, qos: int, retain: bool,
                                            prompt: string, ack: string, rest: seq<string>)
    requires ">" in Response([prompt]) && TailAccepts(NothingOrOk, ack)
    ensures Run(PublishPlan(topic, payload, qos, retain), [prompt, ack] + rest).outcome == Pass
  {
    var p := PublishPlan(topic, payload, qos, retain);
    var inbox := [prompt, ack] + rest;
    assert Reply(inbox) == Reply([prompt]);
    assert Advance(inbox) == [ack] + rest;
    assert p == [p[0]] + [p[1]];
    RunFirst(p[0], [p[1]], inbox);
    RunFirst(p[1], [], Advance(inbox));
  }

  /** The modem's prompt for the payload, framed as it sends it. */
  lemma PromptFramed()
    ensures Response([Transmit([">"])]) == [">"]
  {
    assert WellFormedLine(">");
    FrameTransmit([">"]);
  }

  /** The modem prompts for the payload and acknowledges it: the publish as
      written fails, the intended one passes. */
  lemma PublishAcknowledged(topic: string, payload: string, qos: int, retain: bool, rest: seq<string>)
    ensures Run(PublishPlanAsWritten(topic, payload, qos, retain), [Transmit([">"]), PayloadAck] + rest).outcome
            == Fail(ReplyNotText)
    ensures Run(PublishPlan(topic, payload, qos, retain), [Transmit([">"]), PayloadAck] + rest).outcome == Pass
  {
    PromptFramed();
    PayloadAckAccepted();
    PublishAckFailsAsWritten(topic, payload, qos, retain, Transmit([">"]), PayloadAck, rest);
    PublishAckPasses(topic, payload, qos, retain, Transmit([">"]), PayloadAck, rest);
  }

  /** The intended publish passes whenever the written one does, and the two
      agree when nothing is waiting after the payload. */
  lemma PublishAsWrittenRefinesIntended(topic: string, payload: string, qos: int, retain: bool, inbox: seq<string>)
    ensures Run(PublishPlanAsWritten(topic, payload, qos, retain), inbox).outcome.Pass? ==>
            Run(PublishPlan(topic, payload, qos, retain), inbox).outcome.Pass?
    ensures Reply(Advance(inbox)) == "" ==>
            Run(PublishPlanAsWritten(topic, payload, qos, retain), inbox) == Run(PublishPlan(topic, payload, qos, retain), inbox)
  {
    var w := PublishPlanAsWritten(topic, payload, qos, retain);
    var p := PublishPlan(topic, payload, qos, retain);
    assert w == [w[0]] + [w[1]] && p == [p[0]] + [p[1]];
    RunFirst(w[0], [w[1]], inbox);
    RunFirst(p[0], [p[1]], inbox);
    RunFirst(w[1], [], Advance(inbox));
    RunFirst(p[1], [], Advance(inbox));
  }

  /** The length declared in `+SMPUB` is the number of characters; it is the
      number of bytes streamed exactly when every character is ASCII. */
  lemma {:induction false} PublishDeclaredLength(s: string)
    ensures Utf8Length(s) == |s| <==> forall i :: 0 <= i < |s| ==> s[i] as int < 0x80
    decreases |s|
  {
    if s != [] {
      PublishDeclaredLength(s[1..]);
      if forall i :: 0 <= i < |s| ==> s[i] as int < 0x80 {
        forall i | 0 <= i < |s| - 1 ensures s[1..][i] as int < 0x80 {
          assert s[1..][i] == s[i + 1];
        }
      } else {
        var i :| 0 <= i < |s| && s[i] as int >= 0x80;
        if i > 0 {
          assert s[1..][i - 1] == s[i];
        }
      }
    }
  }
}
