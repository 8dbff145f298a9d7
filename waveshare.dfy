/** `WaveshareNbiotHat`: the driver object. Its fields are the ones the
    driver keeps; the serial port is the script `inbox` of the modem's replies
    and the ghost `log` of what the driver has done to the outside world. */
module Waveshare {
  import opened Wrappers
  import opened Text
  import opened Framing
  import opened Enums
  import opened Errors
  import opened AtCommands
  import opened Exchange
  import opened Budget
  import opened Registry
  import opened Operations
  import opened Walks

  /** The SIM7080G module as the driver reaches it through the UART and the
      power pin: the replies it still has to give, one per read, and what it
      has been sent so far. */
  class Device {
    var inbox: seq<string>
    ghost var log: seq<Event>

    constructor(script: seq<string>)
      ensures inbox == script && log == []
    {
      inbox := script;
      log := [];
    }

    /** The exchange with the module went as the trace `t` says, and the
        operation ended with `r`. */
    twostate predicate Performed(new t: Trace, new r: Outcome<Error>)
      reads this
    {
      r == t.outcome && inbox == t.rest && log == old(log) + t.events
    }
  }

  class Hat {
    /** `_baudrate`. */
    const baudrate: nat
    /** `uart` and `power_pin`, both leading to the module. */
    const device: Device
    /** `_ready`: unknown (`None`) until the module has been probed. */
    var ready: Option<bool>
    /** `_rf_enabled`: unknown; no operation sets it. */
    var rfEnabled: Option<bool>
    /** `_pdp_contexts`. */
    var contexts: Contexts
    /** `_active_pdp_context`. */
    var active: Option<int>
    /** `_mqtt_connected`. */
    var mqttConnected: bool

    ghost predicate Valid()
      reads this
    {
      Registry.Valid(contexts, active) && baudrate == BaudRate
    }

    /** A driver for a module that will reply with `script`: nothing known
        about readiness or RF, no contexts, none active, and `_mqtt_connected`
        set. */
    constructor(script: seq<string>)
      ensures Valid()
      ensures ready.None? && rfEnabled.None? && contexts == map[] && active.None? && mqttConnected
      ensures fresh(device) && device.inbox == script && device.log == []
    {
      baudrate := BaudRate;
      device := new Device(script);
      ready := None;
      rfEnabled := None;
      contexts := map[];
      active := None;
      mqttConnected := true;
    }

    /** `at_command`: writes the command, waits `settleMs`, and returns the
        non-blank lines of the reply, stripped, in order. */
    method AtCommand(cmd: string, settleMs: nat) returns (res: seq<string>)
      modifies device
      ensures res == Response(old(device.inbox))
      ensures device.inbox == Advance(old(device.inbox))
      ensures device.log == old(device.log) + [Command(cmd, settleMs)]
    {
      device.log := device.log + [Command(cmd, settleMs)];
      res := ReadLines(Reply(device.inbox));
      device.inbox := Advance(device.inbox);
    }

    /** `power_on`: one blink of the power pin. */
    method PowerOn()
      modifies device
      ensures device.inbox == old(device.inbox) && device.log == old(device.log) + [PowerOnPulse]
    {
      device.log := device.log + [PowerOnPulse];
    }

    /** `power_off`. */
    method PowerOff()
      modifies device
      ensures device.inbox == old(device.inbox) && device.log == old(device.log) + [PowerOffPulse]
    {
      device.log := device.log + [PowerOffPulse];
    }

    /** `disable_rf`: true exactly when the response holds the lines `OK` and
        `+CPIN: NOT READY`. */
    method DisableRf(ghost next: Plan) returns (ok: bool)
      modifies device
      ensures ok <==> "OK" in Response(old(device.inbox)) && SimNotReady in Response(old(device.inbox))
      ensures ok == StepPasses(DisableRfStep, old(device.inbox))
      ensures device.inbox == Advance(old(device.inbox))
      ensures device.log == old(device.log) + StepEvents(DisableRfStep)
      ensures ExecPlan(Then(DisableRfStep, next), old(device.inbox), old(device.log)) ==
              if ok then ExecPlan(next, device.inbox, device.log) else Trace(Fail(RfDisableFailed), device.log, device.inbox)
    {
      var res := AtCommand(RfOff, DefaultSettleMs);
      if "OK" !in res {
        return false;
      }
      if SimNotReady !in res {
        return false;
      }
      return true;
    }

    /** `enable_rf`: true exactly when the response holds the lines `OK` and
        `+CPIN: READY`. */
    method EnableRf(ghost next: Plan) returns (ok: bool)
      modifies device
      ensures ok <==> "OK" in Response(old(device.inbox)) && SimReady in Response(old(device.inbox))
      ensures ok == StepPasses(EnableRfStep, old(device.inbox))
      ensures device.inbox == Advance(old(device.inbox))
      ensures device.log == old(device.log) + StepEvents(EnableRfStep)
      ensures ExecPlan(Then(EnableRfStep, next), old(device.inbox), old(device.log)) ==
              if ok then ExecPlan(next, device.inbox, device.log) else Trace(Fail(RfEnableFailed), device.log, device.inbox)
    {
      var res := AtCommand(RfOn, DefaultSettleMs);
      if "OK" !in res {
        return false;
      }
      if SimReady !in res {
        return false;
      }
      return true;
    }

    /** One command whose response must hold the line `line`. */
    method Expect(cmd: string, line: string, err: Error, ghost next: Plan) returns (r: Outcome<Error>)
      modifies device
      ensures r == if StepPasses(Expecting(cmd, line, err), old(device.inbox)) then Pass else Fail(err)
      ensures device.inbox == Advance(old(device.inbox))
      ensures device.log == old(device.log) + [Command(cmd, DefaultSettleMs)]
      ensures ExecPlan(Then(Expecting(cmd, line, err), next), old(device.inbox), old(device.log)) ==
              if r.Pass? then ExecPlan(next, device.inbox, device.log) else Trace(r, device.log, device.inbox)
    {
      var res := AtCommand(cmd, DefaultSettleMs);
      if line !in res {
        return Fail(err);
      }
      return Pass;
    }

    /** The exchanges of `pdp_context_define` once its arguments are
        accepted: RF off, the definition command `cgdcont`, RF on, the attach
        check when `ip`, and the APN check, whose answer must be `echo`. */
    method DefineExchange(cgdcont: string, ip: bool, echo: string) returns (r: Outcome<Error>)
      modifies device
      ensures var t := ExecPlan(DefineWalk(cgdcont, ip, echo), old(device.inbox), old(device.log));
              r == t.outcome && device.inbox == t.rest && device.log == t.events
    {
      // `todo` is what remains of the walk after each step.
      ghost var todo := DefineWalk(cgdcont, ip, echo);
      var ok := DisableRf(todo.next);
      if !ok {
        return Fail(RfDisableFailed);
      }
      todo := todo.next;
      r := Expect(cgdcont, "OK", DefineRejected, todo.next);
      if r.Fail? {
        return;
      }
      todo := todo.next;
      ok := EnableRf(todo.next);
      if !ok {
        return Fail(RfEnableFailed);
      }
      todo := todo.next;
      if ip {
        r := Expect(AttachQuery, Attached, NotAttached, todo.next);
        if r.Fail? {
          return;
        }
        todo := todo.next;
      }
      r := Expect(ApnQuery, echo, ApnNotConfirmed, todo.next);
    }

    /** `pdp_context_define`, storing the context once the module has
        confirmed it. */
    method PdpContextDefine(id: int, apn: string, s: DataService) returns (r: Outcome<Error>)
      requires Valid()
      modifies this, device
      ensures Valid()
      ensures device.Performed(DefineSpec(id, apn, s, old(device.inbox)), r)
      ensures contexts == if r.Pass? then Define(old(contexts), id, apn, s) else old(contexts)
      ensures ready == old(ready) && rfEnabled == old(rfEnabled) && active == old(active)
      ensures mqttConnected == old(mqttConnected)
    {
      var gate := DefineGate(id, apn);
      if gate.Some? {
        return Fail(gate.value);
      }
      DefineWalkRuns(id, apn, s, device.inbox, device.log);
      r := DefineExchange(CgdcontCommand(id, s, apn), IsIp(s), ApnEcho(id, apn));
      if r.Pass? {
        DefinePreservesValid(contexts, active, id, apn, s);
        contexts := Define(contexts, id, apn, s);
      }
    }

    /** `pdp_context_configure`: the context must be defined; an APN or a
        service not given is taken from the stored context; once the module
        accepts `+CNCFG` the credentials are stored and the context is
        configured. */
    method PdpContextConfigure(id: int, apn: string, s: Option<DataService>,
                               username: string, password: string, auth: Option<AuthType>)
      returns (r: Outcome<Error>)
      requires Valid()
      modifies this, device
      ensures Valid()
      ensures device.Performed(ConfigureSpec(old(contexts), id, apn, s, username, password, auth, old(device.inbox)), r)
      ensures contexts == if r.Pass? then Configure(old(contexts), id, username, password, auth) else old(contexts)
      ensures ready == old(ready) && rfEnabled == old(rfEnabled) && active == old(active)
      ensures mqttConnected == old(mqttConnected)
    {
      var gate := ConfigureGate(contexts, id);
      if gate.Some? {
        return Fail(gate.value);
      }
      var cmd := ConfigureCommand(contexts, id, apn, s, username, password, auth);
      SingleRuns(Expecting(cmd, "OK", ConfigureRejected), device.inbox, device.log);
      r := Expect(cmd, "OK", ConfigureRejected, Done);
      if r.Pass? {
        ConfigurePreservesValid(contexts, active, id, username, password, auth);
        contexts := Configure(contexts, id, username, password, auth);
      }
    }

    /** `pdp_context_activate`: the context must be defined and configured.
        The activation command's confirmation is only logged when missing.
        For an IP context, deactivation forgets the address and clears the
        active context; any other action reads the `+CNACT` table and, from
        the context's row, takes the address and makes the context active. */
    method PdpContextActivate(id: int, action: PdpAction) returns (r: Outcome<Error>)
      requires Valid()
      modifies this, device
      ensures Valid()
      ensures var t := ActivateSpec(old(contexts), old(active), id, action, old(device.inbox));
              device.Performed(t.trace, r) && contexts == t.contexts && active == t.active
      ensures ready == old(ready) && rfEnabled == old(rfEnabled) && mqttConnected == old(mqttConnected)
    {
      ActivateSpecPreservesValid(contexts, active, id, action, device.inbox);
      var gate := ActivateGate(contexts, id);
      if gate.Some? {
        return Fail(gate.value);
      }
      var res := AtCommand(CnactCommand(id, action), DefaultSettleMs);
      var c := contexts[id];
      if !c.IsIpContext() {
        return Pass;
      }
      if action == Deactivate {
        contexts := contexts[id := c.(ipAddress := None)];
        active := None;
        return Pass;
      }
      res := AtCommand(CnactQuery, DefaultSettleMs);
      var row := FindRow(res, CnactPrefix(id));
      if row.Some? {
        var address := AddressField(res[row.value]);
        if address.None? {
          return Fail(AddressFieldMissing);
        }
        contexts := contexts[id := c.(ipAddress := Some(address.value))];
        active := Some(id);
      }
      return Pass;
    }

    /** A payload of `size` bytes written to the UART, followed by the wait
        `wait`; what is waiting then is read whole and must be acceptable to
        `tail`, or `err` is raised. */
    method SendPayload(size: nat, wait: nat, tail: Tail, err: Error, ghost next: Plan) returns (r: Outcome<Error>)
      modifies device
      ensures r == if TailAccepts(tail, Reply(old(device.inbox))) then Pass else Fail(err)
      ensures device.inbox == Advance(old(device.inbox))
      ensures device.log == old(device.log) + [Upload(size), Pause(wait)]
      ensures ExecPlan(Then(Stream(size, wait, tail, err), next), old(device.inbox), old(device.log)) ==
              if r.Pass? then ExecPlan(next, device.inbox, device.log) else Trace(r, device.log, device.inbox)
    {
      device.log := device.log + [Upload(size), Pause(wait)];
      var waiting := Reply(device.inbox);
      device.inbox := Advance(device.inbox);
      if waiting != "" {
        if tail == NothingAtAll || !Contains(Strip(waiting), "OK") {
          return Fail(err);
        }
      }
      return Pass;
    }

    /** `_put_file_in_flash` for a file of `size` bytes: open the flash file
        system, open the download, stream the file and wait for it, check
        what is waiting, close the file system; then go on with `next`. */
    method PutFileInFlash(size: nat, flashName: string, ghost next: Plan) returns (r: Outcome<Error>)
      modifies device
      ensures ExecPlan(PutFileWalk(size, flashName, next), old(device.inbox), old(device.log)) ==
              if r.Pass? then ExecPlan(next, device.inbox, device.log) else Trace(r, device.log, device.inbox)
    {
      ghost var todo := PutFileWalk(size, flashName, next);
      r := Expect(FsInit, "OK", FsInitFailed, todo.next);
      if r.Fail? {
        return;
      }
      todo := todo.next;
      r := Expect(CfswfileCommand(flashName, size), "DOWNLOAD", DownloadNotOpened, todo.next);
      if r.Fail? {
        return;
      }
      todo := todo.next;
      r := SendPayload(size, UploadWait(size), NothingOrOk, DownloadFailed, todo.next);
      if r.Fail? {
        return;
      }
      todo := todo.next;
      r := Expect(FsTerm, "OK", FsTermFailed, todo.next);
    }

    /** The clock check of `pdp_context_configure_ssl`: `+CCLK?`, whose
        response must have a line containing `+CCLK: "`. */
    method CheckClock(ghost next: Plan) returns (r: Outcome<Error>)
      modifies device
      ensures ExecPlan(Then(Exchange(ClockQuery, DefaultSettleMs, AnyLineContains(ClockSynced), ClockNotSynced), next),
                       old(device.inbox), old(device.log)) ==
              if r.Pass? then ExecPlan(next, device.inbox, device.log) else Trace(r, device.log, device.inbox)
    {
      var res := AtCommand(ClockQuery, DefaultSettleMs);
      var sync := AnyLineContaining(res, ClockSynced);
      if !sync {
        return Fail(ClockNotSynced);
      }
      return Pass;
    }

    /** `pdp_context_configure_ssl` with the three files described by their
        sizes (`None` for a missing file): the file and session checks, the
        clock check, the three uploads and the two conversions. */
    method PdpContextConfigureSsl(ca: Option<nat>, cert: Option<nat>, key: Option<nat>) returns (r: Outcome<Error>)
      requires Valid()
      modifies device
      ensures device.Performed(SslSpec(contexts, active, ca, cert, key, old(device.inbox)), r)
    {
      var gate := SslGate(contexts, active, ca, cert, key);
      if gate.Some? {
        return Fail(gate.value);
      }
      SslWalkRuns(contexts, active, ca, cert, key, device.inbox, device.log);
      r := SslExchange(ca.value, cert.value, key.value);
    }

    /** The exchanges of `pdp_context_configure_ssl` once its checks pass. */
    method SslExchange(caSize: nat, certSize: nat, keySize: nat) returns (r: Outcome<Error>)
      modifies device
      ensures var t := ExecPlan(SslWalk(caSize, certSize, keySize), old(device.inbox), old(device.log));
              r == t.outcome && device.inbox == t.rest && device.log == t.events
    {
      ghost var keyNext := ConvertWalk();
      ghost var certNext := PutFileWalk(keySize, KeyFlashName, keyNext);
      ghost var caNext := PutFileWalk(certSize, CertFlashName, certNext);
      r := CheckClock(PutFileWalk(caSize, CaFlashName, caNext));
      if r.Fail? {
        return;
      }
      r := PutFileInFlash(caSize, CaFlashName, caNext);
      if r.Fail? {
        return;
      }
      r := PutFileInFlash(certSize, CertFlashName, certNext);
      if r.Fail? {
        return;
      }
      r := PutFileInFlash(keySize, KeyFlashName, keyNext);
      if r.Fail? {
        return;
      }
      r := Expect(ConvertCa, "OK", CaConvertFailed, keyNext.next);
      if r.Fail? {
        return;
      }
      r := Expect(ConvertClient, "OK", ClientConvertFailed, Done);
    }

    /** `mqtt_connect`: the session check, the four `+SMCONF` settings, and
        then, with `ssl`, the call `pdp_context_configure_ssl()` without its
        arguments, which raises `TypeError`; without it, `+SMCONN`, after
        which the driver counts as connected. */
    method MqttConnect(url: string, port: int, clientId: string, keepalive: int, ssl: bool)
      returns (r: Outcome<Error>)
      requires Valid()
      modifies this, device
      ensures Valid()
      ensures device.Performed(MqttConnectSpec(contexts, active, url, port, clientId, keepalive, ssl, old(device.inbox)), r)
      ensures mqttConnected == (r.Pass? || old(mqttConnected))
      ensures ready == old(ready) && rfEnabled == old(rfEnabled)
      ensures contexts == old(contexts) && active == old(active)
    {
      var gate := SessionGate(contexts, active, NoValidContext, NoValidAddress);
      if gate.Some? {
        return Fail(gate.value);
      }
      MqttConnectWalkRuns(contexts, active, url, port, clientId, keepalive, ssl, device.inbox, device.log);
      r := MqttExchange(url, port, clientId, keepalive, ssl);
      if r.Pass? {
        mqttConnected := true;
      }
    }

    /** The exchanges of `mqtt_connect` once the session check passes. */
    method MqttExchange(url: string, port: int, clientId: string, keepalive: int, ssl: bool)
      returns (r: Outcome<Error>)
      modifies device
      ensures if ssl then
                var t := ExecPlan(MqttConfigWalk(url, port, clientId, keepalive, Done), old(device.inbox), old(device.log));
                device.inbox == t.rest && device.log == t.events
                && r == if t.outcome.Pass? then Fail(SslArgumentsMissing) else t.outcome
              else
                var t := ExecPlan(MqttConfigWalk(url, port, clientId, keepalive, Then(ConnectStep, Done)),
                                  old(device.inbox), old(device.log));
                r == t.outcome && device.inbox == t.rest && device.log == t.events
    {
      ghost var todo := MqttConfigWalk(url, port, clientId, keepalive, if ssl then Done else Then(ConnectStep, Done));
      r := Expect(SmconfUrl(url, port), "OK", UrlRejected, todo.next);
      if r.Fail? {
        return;
      }
      todo := todo.next;
      r := Expect(SmconfKeepalive(keepalive), "OK", KeepaliveRejected, todo.next);
      if r.Fail? {
        return;
      }
      todo := todo.next;
      r := Expect(SmconfCleanSession, "OK", CleanSessionRejected, todo.next);
      if r.Fail? {
        return;
      }
      todo := todo.next;
      r := Expect(SmconfClientId(clientId), "OK", ClientIdRejected, todo.next);
      if r.Fail? {
        return;
      }
      if ssl {
        return Fail(SslArgumentsMissing);
      }
      r := Expect(SmConnect, "OK", ConnectFailed, Done);
    }

    /** `mqtt_disconnect`: `+SMDISC`, after which the driver counts as
        disconnected. */
    method MqttDisconnect() returns (r: Outcome<Error>)
      modifies this, device
      ensures device.Performed(Run([DisconnectStep], old(device.inbox)), r)
      ensures mqttConnected == (r.Fail? && old(mqttConnected))
      ensures ready == old(ready) && rfEnabled == old(rfEnabled)
      ensures contexts == old(contexts) && active == old(active)
    {
      SingleRuns(DisconnectStep, device.inbox, device.log);
      r := Expect(SmDisconnect, "OK", DisconnectFailed, Done);
      if r.Pass? {
        mqttConnected := false;
      }
    }

    /** `mqtt_susbscribe`. */
    method MqttSubscribe(topic: string, qos: int) returns (r: Outcome<Error>)
      modifies device
      ensures device.Performed(Run([SubscribeStep(topic, qos)], old(device.inbox)), r)
    {
      SingleRuns(SubscribeStep(topic, qos), device.inbox, device.log);
      r := Expect(SmsubCommand(topic, qos), "OK", SubscribeFailed, Done);
    }

    /** `mqtt_unsubscribe`. */
    method MqttUnsubscribe(topic: string) returns (r: Outcome<Error>)
      modifies device
      ensures device.Performed(Run([UnsubscribeStep(topic)], old(device.inbox)), r)
    {
      SingleRuns(UnsubscribeStep(topic), device.inbox, device.log);
      r := Expect(SmunsubCommand(topic), "OK", UnsubscribeFailed, Done);
    }

    /** `mqtt_publish` as intended: `+SMPUB` declaring the payload's length,
        the prompt, the payload, and an acknowledgement that is empty or
        contains `OK`. */
    method MqttPublish(topic: string, payload: string, qos: int, retain: bool) returns (r: Outcome<Error>)
      modifies device
      ensures device.Performed(Run(PublishPlan(topic, payload, qos, retain), old(device.inbox)), r)
    {
      PublishWalkRuns(topic, payload, qos, retain, device.inbox, device.log);
      ghost var todo := PublishWalk(topic, payload, qos, retain);
      r := Expect(SmpubCommand(topic, |payload|, qos, retain), ">", NoPrompt, todo.next);
      if r.Fail? {
        return;
      }
      r := SendPayload(Utf8Length(payload), PublishWait(|payload|), NothingOrOk, PublishFailed, Done);
    }

    /** `initialize`: up to `maxAttempts` probes with `AT`, each answered by an
        `OK` line or followed by a power-on pulse; the module is ready exactly
        when one of the probes was answered. */
    method Initialize(maxAttempts: int) returns (ok: bool)
      modifies this, device
      ensures var p := ProbeRun(maxAttempts, old(device.inbox));
              ok == p.responsive && device.inbox == p.rest && device.log == old(device.log) + p.events
      ensures ok <==> exists k :: 0 <= k < maxAttempts && OkAt(old(device.inbox), k)
      ensures ready == Some(ok)
      ensures rfEnabled == old(rfEnabled) && contexts == old(contexts) && active == old(active)
      ensures mqttConnected == old(mqttConnected)
    {
      ProbeFindsOk(maxAttempts, device.inbox);
      ok := ProbeModule(maxAttempts);
      ready := Some(ok);
    }

    /** The loop of `initialize`: probe until answered or out of attempts. */
    method ProbeModule(maxAttempts: int) returns (responsive: bool)
      modifies device
      ensures var p := ProbeRun(maxAttempts, old(device.inbox));
              responsive == p.responsive && device.inbox == p.rest && device.log == old(device.log) + p.events
    {
      ProbeExecRun(maxAttempts, device.inbox, 0, device.log);
      ghost var whole := ProbeExec(maxAttempts, device.inbox, 0, device.log);
      responsive := false;
      var attempt := 0;
      while !responsive && attempt < maxAttempts
        invariant 0 <= attempt
        invariant !responsive ==> whole == ProbeExec(maxAttempts - attempt, device.inbox, attempt, device.log)
        invariant responsive ==> whole == Probe(true, attempt, device.log, device.inbox)
        decreases maxAttempts - attempt
      {
        ghost var log := device.log;
        attempt := attempt + 1;
        var res := AtCommand(ProbeCommand, ProbeSettleMs);
        if "OK" in res {
          responsive := true;
        } else {
          PowerOn();
          assert device.log == log + [Command(ProbeCommand, ProbeSettleMs), PowerOnPulse];
        }
      }
    }

    /** The `ready` property: probe with three attempts the first time, then
        report what is known. */
    method Ready() returns (ok: bool)
      modifies this, device
      ensures old(ready).Some? ==> ok == old(ready).value && device.inbox == old(device.inbox)
                                   && device.log == old(device.log)
      ensures old(ready).None? ==>
                var p := ProbeRun(3, old(device.inbox));
                ok == p.responsive && device.inbox == p.rest && device.log == old(device.log) + p.events
      ensures ready == Some(ok)
      ensures rfEnabled == old(rfEnabled) && contexts == old(contexts) && active == old(active)
      ensures mqttConnected == old(mqttConnected)
    {
      if ready.None? {
        ok := Initialize(3);
      } else {
        ok := ready.value;
      }
    }
  }

  /** The loop of `pdp_context_configure_ssl` over the clock response: some
      line contains `text`. */
  method AnyLineContaining(lines: seq<string>, text: string) returns (found: bool)
    ensures found == Accepts(AnyLineContains(text), lines)
    ensures found <==> exists i :: 0 <= i < |lines| && Contains(lines[i], text)
  {
    var i := 0;
    while i < |lines|
      invariant 0 <= i <= |lines|
      invariant forall j :: 0 <= j < i ==> !Contains(lines[j], text)
      decreases |lines| - i
    {
      if Contains(lines[i], text) {
        return true;
      }
      i := i + 1;
    }
    return false;
  }

  /** The loop of `pdp_context_activate` over the `+CNACT` table: the index of
      the first line starting with `prefix`. */
  method FindRow(lines: seq<string>, prefix: string) returns (r: Option<nat>)
    ensures r == FirstWithPrefix(lines, prefix)
  {
    var i := 0;
    while i < |lines|
      invariant 0 <= i <= |lines|
      invariant forall j :: 0 <= j < i ==> !StartsWith(lines[j], prefix)
      decreases |lines| - i
    {
      if StartsWith(lines[i], prefix) {
        return Some(i);
      }
      i := i + 1;
    }
    return None;
  }
}
