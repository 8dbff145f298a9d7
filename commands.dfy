/** The text the driver writes to the modem and the reply lines it looks for.
    Commands follow the command line format of ITU-T V.250 section 5.2.1
    (prefix `AT`, then the command); the terminating carriage return is added
    when the command is sent. `+CGDCONT`, `+CGATT`, `+CFUN` and `+CPIN` are the
    commands of 3GPP TS 27.007 sections 10.1.1, 10.1.9, 8.2 and 8.3; the others
    are the SIM7080 module's own. */
module AtCommands {
  import opened Wrappers
  import opened Text
  import opened Enums

  function Quoted(s: string): (r: string)
    ensures forall c :: c in r <==> c == '"' || c in s
  {
    "\"" + s + "\""
  }

  /** No service name contains a comma, so the quoted service is one field. */
  lemma ServiceStrNoComma(s: DataService)
    ensures ',' !in ServiceStr(s)
  {
    match s
    case DualPdn =>
    case IpV4 =>
    case IpV6 =>
    case NonIp =>
    case ExNonIp =>
  }

  // ---------------------------------------------------------------------------
  // Modem lifecycle and context definition
  // ---------------------------------------------------------------------------

  /** `+CFUN=0` and `+CFUN=1` (3GPP TS 27.007 section 8.2). */
  const RfOff: string := "AT+CFUN=0"
  const RfOn: string := "AT+CFUN=1"

  /** The SIM status lines (3GPP TS 27.007 section 8.3) `disable_rf` and
      `enable_rf` require next to `OK`. */
  const SimNotReady: string := "+CPIN: NOT READY"
  const SimReady: string := "+CPIN: READY"

  /** The packet-service attach query as the source spells it (the standard
      read command of 3GPP TS 27.007 section 10.1.9 is `AT+CGATT?`), and the
      line that confirms attachment. */
  const AttachQuery: string := "AT+GCATT?"
  const Attached: string := "+CGATT: 1"

  /** The APN query as the source spells it. */
  const ApnQuery: string := "AT+GCNAPN"

  /** `AT+CGDCONT={id},"{str(data_service)}","{apn}"`. */
  function CgdcontCommand(id: int, s: DataService, apn: string): string {
    "AT+CGDCONT=" + IntToDecimal(id) + "," + Quoted(ServiceStr(s)) + "," + Quoted(apn)
  }

  /** The line that confirms the APN of a context: `+CGNAPN: {id},"{apn}"`. */
  function ApnEcho(id: int, apn: string): string {
    "+CGNAPN: " + IntToDecimal(id) + "," + Quoted(apn)
  }

  /** The `+CGDCONT` command has three fields: the id, the quoted service and
      the quoted APN. */
  lemma CgdcontFields(id: int, s: DataService, apn: string)
    requires ',' !in apn
    ensures Split(CgdcontCommand(id, s, apn), ',') ==
            ["AT+CGDCONT=" + IntToDecimal(id), Quoted(ServiceStr(s)), Quoted(apn)]
  {
    var head := "AT+CGDCONT=" + IntToDecimal(id);
    var svc := Quoted(ServiceStr(s));
    ServiceStrNoComma(s);
    assert ',' !in head;
    assert ',' !in svc;
    assert ',' !in Quoted(apn);
    assert CgdcontCommand(id, s, apn) == head + [','] + (svc + [','] + Quoted(apn));
    SplitAtSep(head, svc + [','] + Quoted(apn), ',');
    SplitAtSep(svc, Quoted(apn), ',');
    SplitNoSep(Quoted(apn), ',');
  }

  // ---------------------------------------------------------------------------
  // Context configuration: +CNCFG with optional trailing fields
  // ---------------------------------------------------------------------------

  /** The command of `pdp_context_configure`: the id, the service and the APN,
      then the credentials and the authentication method. */
  function CncfgCommand(id: int, s: DataService, apn: string, username: string,
                        password: string, auth: Option<AuthType>): string
  {
    CncfgBase(id, s, apn) + CncfgCredentials(username, password) + CncfgAuth(username, password, auth)
  }

  function CncfgBase(id: int, s: DataService, apn: string): string {
    "AT+CNCFG=" + IntToDecimal(id) + "," + Quoted(ServiceStr(s)) + "," + Quoted(apn)
  }

  /** The username when it is not empty, followed by the password when that
      is not empty either. */
  function CncfgCredentials(username: string, password: string): string {
    if username != "" then "," + username + (if password != "" then "," + password else "") else ""
  }

  /** When a method is given: an empty username and password field when both
      are empty, then the method's number. */
  function CncfgAuth(username: string, password: string, auth: Option<AuthType>): string {
    if auth.Some? then (if username == "" && password == "" then ",," else "") + "," + IntToDecimal(AuthCode(auth.value)) else ""
  }

  function CredentialFields(username: string, password: string): seq<string> {
    if username != "" then [username] + (if password != "" then [password] else []) else []
  }

  function AuthFields(username: string, password: string, auth: Option<AuthType>): seq<string> {
    if auth.Some? then (if username == "" && password == "" then ["", ""] else []) + [IntToDecimal(AuthCode(auth.value))] else []
  }

  /** The optional fields after the APN, in the order the command writes them. */
  function CncfgOptionalFields(username: string, password: string, auth: Option<AuthType>): seq<string> {
    CredentialFields(username, password) + AuthFields(username, password, auth)
  }

  lemma CncfgBaseFields(id: int, s: DataService, apn: string)
    requires ',' !in apn
    ensures Split(CncfgBase(id, s, apn), ',') ==
            ["AT+CNCFG=" + IntToDecimal(id), Quoted(ServiceStr(s)), Quoted(apn)]
  {
    var head := "AT+CNCFG=" + IntToDecimal(id);
    var svc := Quoted(ServiceStr(s));
    ServiceStrNoComma(s);
    assert ',' !in head;
    assert CncfgBase(id, s, apn) == head + [','] + (svc + [','] + Quoted(apn));
    SplitAtSep(head, svc + [','] + Quoted(apn), ',');
    SplitAtSep(svc, Quoted(apn), ',');
    SplitNoSep(Quoted(apn), ',');
  }

  lemma CredentialsSplit(pre: string, username: string, password: string)
    requires ',' !in username && ',' !in password
    ensures Split(pre + CncfgCredentials(username, password), ',') ==
            Split(pre, ',') + CredentialFields(username, password)
  {
    if username == "" {
      assert pre + "" == pre;
      assert Split(pre, ',') + [] == Split(pre, ',');
    } else if password == "" {
      SplitAppend(pre, username, ',');
      assert pre + CncfgCredentials(username, password) == pre + [','] + username;
    } else {
      assert CncfgCredentials(username, password) == [','] + username + [','] + password;
      UserPasswordSplit(pre, username, password);
    }
  }

  /** A username and a password appended as two fields. */
  lemma UserPasswordSplit(pre: string, username: string, password: string)
    requires ',' !in username && ',' !in password
    ensures Split(pre + ([','] + username + [','] + password), ',') == Split(pre, ',') + [username, password]
  {
    var withUser := pre + [','] + username;
    SplitAppend(pre, username, ',');
    SplitAppend(withUser, password, ',');
    assert pre + ([','] + username + [','] + password) == withUser + [','] + password;
  }

  /** Two empty fields and then `code`. */
  lemma BlankPairSplit(pre: string, code: string)
    requires ',' !in code
    ensures Split(pre + ",," + "," + code, ',') == Split(pre, ',') + ["", "", code]
  {
    SplitAppend(pre, "", ',');
    SplitAppend(pre + [','] + "", "", ',');
    SplitAppend(pre + [','] + "" + [','] + "", code, ',');
    assert pre + ",," + "," + code == pre + [','] + "" + [','] + "" + [','] + code;
    assert Split(pre, ',') + ["", "", code] == Split(pre, ',') + [""] + [""] + [code];
  }

  lemma AuthSplit(pre: string, username: string, password: string, auth: Option<AuthType>)
    ensures Split(pre + CncfgAuth(username, password, auth), ',') ==
            Split(pre, ',') + AuthFields(username, password, auth)
  {
    if auth.None? {
      assert pre + "" == pre;
      assert Split(pre, ',') + [] == Split(pre, ',');
    } else {
      var code := IntToDecimal(AuthCode(auth.value));
      assert ',' !in code;
      if username == "" && password == "" {
        BlankPairSplit(pre, code);
        assert pre + CncfgAuth(username, password, auth) == pre + ",," + "," + code;
      } else {
        SplitAppend(pre, code, ',');
        assert pre + CncfgAuth(username, password, auth) == pre + [','] + code;
      }
    }
  }

  /** The fields of the `+CNCFG` command: the three fixed ones, then the
      optional ones in order. */
  lemma CncfgFields(id: int, s: DataService, apn: string, username: string,
                    password: string, auth: Option<AuthType>)
    requires ',' !in apn && ',' !in username && ',' !in password
    ensures Split(CncfgCommand(id, s, apn, username, password, auth), ',') ==
            ["AT+CNCFG=" + IntToDecimal(id), Quoted(ServiceStr(s)), Quoted(apn)]
            + CncfgOptionalFields(username, password, auth)
  {
    var base := CncfgBase(id, s, apn);
    var cred := CncfgCredentials(username, password);
    var fixed := Split(base, ',');
    var credFields := CredentialFields(username, password);
    var authFields := AuthFields(username, password, auth);
    CncfgBaseFields(id, s, apn);
    CredentialsSplit(base, username, password);
    AuthSplit(base + cred, username, password, auth);
    assert Split(CncfgCommand(id, s, apn, username, password, auth), ',') == (fixed + credFields) + authFields;
    assert (fixed + credFields) + authFields == fixed + (credFields + authFields);
  }

  /** Where each value lands in the `+CNCFG` command: a non-empty username is
      the fourth field, the password follows it only when both are non-empty,
      the authentication number is always the last field, an empty pair of
      fields precedes it only when username and password are both empty, and
      without any of them the command ends with the quoted APN. */
  lemma CncfgShape(id: int, s: DataService, apn: string, username: string,
                   password: string, auth: Option<AuthType>)
    requires ',' !in apn && ',' !in username && ',' !in password
    ensures var f := Split(CncfgCommand(id, s, apn, username, password, auth), ',');
      && |f| >= 3 && f[2] == Quoted(apn)
      && (username != "" ==> |f| >= 4 && f[3] == username)
      && (username != "" && password != "" ==> |f| >= 5 && f[4] == password)
      && (auth.Some? ==> f[|f| - 1] == IntToDecimal(AuthCode(auth.value)))
      && (auth.Some? && username == "" && password == "" ==> |f| >= 3 && f[3..] == ["", "", IntToDecimal(AuthCode(auth.value))])
      && (username == "" && auth.None? ==> |f| == 3)
  {
    CncfgFields(id, s, apn, username, password, auth);
  }

  /** The fields are positional, but the authentication number is the sixth
      field only when username and password are both given or both empty:
      with a username alone it lands in the password field, and with a
      password alone (which is then not sent) in the username field. */
  lemma CncfgAuthPosition(id: int, s: DataService, apn: string, username: string,
                          password: string, a: AuthType)
    requires ',' !in apn && ',' !in username && ',' !in password
    ensures var f := Split(CncfgCommand(id, s, apn, username, password, Some(a)), ',');
      && (|f| == 6 <==> (username == "") == (password == ""))
      && (username != "" && password == "" ==> |f| == 5 && f[4] == IntToDecimal(AuthCode(a)))
      && (username == "" && password != "" ==> |f| == 4 && f[3] == IntToDecimal(AuthCode(a)))
  {
    CncfgFields(id, s, apn, username, password, Some(a));
  }

  // ---------------------------------------------------------------------------
  // Activation: +CNACT
  // ---------------------------------------------------------------------------

  /** `AT+CNACT={id},{action.value}`. */
  function CnactCommand(id: int, a: PdpAction): string {
    "AT+CNACT=" + IntToDecimal(id) + "," + IntToDecimal(ActionCode(a))
  }

  /** The activation confirmation the source looks for (and only logs when
      missing): `+APP PDP: {id},{action.name}`. */
  function ActivationConfirmation(id: int, a: PdpAction): string {
    "+APP PDP: " + IntToDecimal(id) + "," + ActionName(a)
  }

  /** The read form of `+CNACT`, which lists the contexts and their addresses. */
  const CnactQuery: string := "AT+CNACT?"

  /** The prefix that identifies the table row of a context. */
  function CnactPrefix(id: int): string {
    "+CNACT: " + IntToDecimal(id)
  }

  /** A table row as the modem writes it: id, state and quoted address. */
  function CnactRow(id: int, state: int, address: string): string {
    "+CNACT: " + IntToDecimal(id) + "," + IntToDecimal(state) + "," + Quoted(address)
  }

  /** A modem reading `+CNACT` commands recovers the id and the action. */
  function ParseCnact(cmd: string): Option<(int, PdpAction)> {
    var f := Split(cmd, ',');
    if |f| != 2 || !StartsWith(f[0], "AT+CNACT=") then None
    else
      var idText := f[0][|"AT+CNACT="|..];
      if idText == [] || !AllDigits(idText) || f[1] == [] || !AllDigits(f[1]) then None
      else match ActionFromCode(DecimalValue(f[1]))
        case None => None
        case Some(a) => Some((DecimalValue(idText), a))
  }

  /** The `+CNACT=` command has two fields: the command with the id, and the
      action code. */
  lemma CnactSplit(id: nat, a: PdpAction)
    ensures Split(CnactCommand(id, a), ',') == ["AT+CNACT=" + IntToDecimal(id), IntToDecimal(ActionCode(a))]
  {
    var head := "AT+CNACT=" + IntToDecimal(id);
    var code := IntToDecimal(ActionCode(a));
    assert ',' !in head;
    assert CnactCommand(id, a) == head + [','] + code;
    SplitAtSep(head, code, ',');
    SplitNoSep(code, ',');
  }

  /** Decoding the `+CNACT` command gives back the context id and the action. */
  lemma CnactRoundTrip(id: nat, a: PdpAction)
    ensures ParseCnact(CnactCommand(id, a)) == Some((id, a))
  {
    var head := "AT+CNACT=" + IntToDecimal(id);
    var code := IntToDecimal(ActionCode(a));
    CnactSplit(id, a);
    assert head[..|"AT+CNACT="|] == "AT+CNACT=";
    assert head[|"AT+CNACT="|..] == NatToDecimal(id);
    DecimalRoundTrip(id);
    DecimalRoundTrip(ActionCode(a));
    ActionCodeRoundTrip(a);
  }

  /** `line.split(',')[2].replace('"', '')`: the address field of a table row
      without its quotes, or nothing where the source raises `IndexError`
      because the line has fewer than three fields. */
  function AddressField(line: string): (r: Option<string>)
    ensures r.Some? ==> '"' !in r.value
    ensures r.Some? <==> |Split(line, ',')| >= 3
  {
    var f := Split(line, ',');
    if |f| < 3 then None else Some(RemoveAll(f[2], '"'))
  }

  /** The address written into a table row is the address read back from it. */
  lemma AddressRoundTrip(id: int, state: int, address: string)
    requires ',' !in address && '"' !in address
    ensures AddressField(CnactRow(id, state, address)) == Some(address)
  {
    CnactRowSplit(id, state, address);
    Unquote(address);
  }

  /** A table row has three fields: the prefix with the id, the state and the
      quoted address. */
  lemma CnactRowSplit(id: int, state: int, address: string)
    requires ',' !in address
    ensures Split(CnactRow(id, state, address), ',') ==
            ["+CNACT: " + IntToDecimal(id), IntToDecimal(state), Quoted(address)]
  {
    var head := "+CNACT: " + IntToDecimal(id);
    var st := IntToDecimal(state);
    var q := Quoted(address);
    assert ',' !in head;
    assert ',' !in q;
    assert CnactRow(id, state, address) == head + [','] + (st + [','] + q);
    SplitAtSep(head, st + [','] + q, ',');
    SplitAtSep(st, q, ',');
    SplitNoSep(q, ',');
  }

  /** Removing the quotes from a quoted text without quotes gives the text back. */
  lemma Unquote(s: string)
    requires '"' !in s
    ensures RemoveAll(Quoted(s), '"') == s
  {
    assert Quoted(s) == ("\"" + s) + "\"";
    RemoveAllAppend("\"" + s, "\"", '"');
    RemoveAllAppend("\"", s, '"');
    assert RemoveAll("\"", '"') == [];
  }

  /** For the context ids 0 to 3, the row prefix of one context matches the
      rows of that context and of no other. */
  lemma CnactPrefixSelectsRow(a: int, b: int, state: int, address: string)
    requires 0 <= a <= 3 && 0 <= b <= 3
    ensures StartsWith(CnactRow(b, state, address), CnactPrefix(a)) <==> a == b
  {
    var row := CnactRow(b, state, address);
    assert |CnactPrefix(a)| == 9;
    assert row[..9] == CnactPrefix(b);
    if CnactPrefix(a) == CnactPrefix(b) {
      assert CnactPrefix(a)[8] == CnactPrefix(b)[8];
    }
  }

  // ---------------------------------------------------------------------------
  // Certificate upload and conversion
  // ---------------------------------------------------------------------------

  const ClockQuery: string := "AT+CCLK?"
  /** The text a synchronized clock line contains. */
  const ClockSynced: string := "+CCLK: \""

  const FsInit: string := "AT+CFSINIT"
  const FsTerm: string := "AT+CFSTERM"

  /** `AT+CFSWFILE=3,"{flashname}",0,{size},1000`. */
  function CfswfileCommand(flashName: string, size: int): string {
    "AT+CFSWFILE=3," + Quoted(flashName) + ",0," + IntToDecimal(size) + ",1000"
  }

  /** The size declared in the write command is the size of the file. */
  lemma CfswfileFields(flashName: string, size: nat)
    requires ',' !in flashName
    ensures var f := Split(CfswfileCommand(flashName, size), ',');
            |f| == 5 && f[1] == Quoted(flashName) && AllDigits(f[3]) && DecimalValue(f[3]) == size
  {
    CfswfileSplit(flashName, size);
    DecimalRoundTrip(size);
  }

  /** The write command is its five fields joined by commas. */
  lemma CfswfileParts(flashName: string, size: nat)
    ensures CfswfileCommand(flashName, size) ==
            "AT+CFSWFILE=3" + [','] + (Quoted(flashName) + [','] + ("0" + [','] + (IntToDecimal(size) + [','] + "1000")))
  {
  }

  /** The five fields of the write command. */
  lemma CfswfileSplit(flashName: string, size: nat)
    requires ',' !in flashName
    ensures Split(CfswfileCommand(flashName, size), ',') ==
            ["AT+CFSWFILE=3", Quoted(flashName), "0", IntToDecimal(size), "1000"]
  {
    assert ',' !in "AT+CFSWFILE=3" && ',' !in Quoted(flashName) && ',' !in "0" && ',' !in "1000";
    CfswfileParts(flashName, size);
    SplitFive("AT+CFSWFILE=3", Quoted(flashName), "0", IntToDecimal(size), "1000", ',');
  }


  const CaFlashName: string := "ca.crt"
  const CertFlashName: string := "client.crt"
  const KeyFlashName: string := "client.key"

  const ConvertCa: string := "AT+CSSLCFG=\"CONVERT\",2,\"ca.crt\""
  const ConvertClient: string := "AT+CSSLCFG=\"CONVERT\",1,\"client.crt\",\"client.key\""

  // ---------------------------------------------------------------------------
  // MQTT
  // ---------------------------------------------------------------------------

  /** `AT+SMCONF="URL",{server_url},{server_port}`. */
  function SmconfUrl(url: string, port: int): string {
    "AT+SMCONF=\"URL\"," + url + "," + IntToDecimal(port)
  }

  /** `AT+SMCONF="KEEPTIME",{keepalive}`. */
  function SmconfKeepalive(seconds: int): string {
    "AT+SMCONF=\"KEEPTIME\"," + IntToDecimal(seconds)
  }

  const SmconfCleanSession: string := "AT+SMCONF=\"CLEANSS\",1"

  /** `AT+SMCONF="CLIENTID",{client_id}`. */
  function SmconfClientId(clientId: string): string {
    "AT+SMCONF=\"CLIENTID\"," + clientId
  }

  const SmConnect: string := "AT+SMCONN"
  const SmDisconnect: string := "AT+SMDISC"

  /** `AT+SMSUB="{topic}",{qos}`. */
  function SmsubCommand(topic: string, qos: int): string {
    "AT+SMSUB=" + Quoted(topic) + "," + IntToDecimal(qos)
  }

  /** `AT+SMUNSUB="{topic}"`. */
  function SmunsubCommand(topic: string): string {
    "AT+SMUNSUB=" + Quoted(topic)
  }

  /** `1 if retain is True else 0`. */
  function RetainFlag(retain: bool): string {
    if retain then "1" else "0"
  }

  /** `AT+SMPUB="{topic}",{len(payload)},{qos},{retain}`. */
  function SmpubCommand(topic: string, length: int, qos: int, retain: bool): string {
    "AT+SMPUB=" + Quoted(topic) + "," + IntToDecimal(length) + "," + IntToDecimal(qos) + "," + RetainFlag(retain)
  }

  /** The publish command declares the payload length in its second field and
      the retain flag, as 1 or 0, in its last. */
  lemma SmpubFields(topic: string, length: nat, qos: int, retain: bool)
    requires ',' !in topic
    ensures var f := Split(SmpubCommand(topic, length, qos, retain), ',');
      && |f| == 4 && f[0] == "AT+SMPUB=" + Quoted(topic)
      && AllDigits(f[1]) && DecimalValue(f[1]) == length
      && f[2] == IntToDecimal(qos)
      && (f[3] == "1" <==> retain) && (f[3] == "0" <==> !retain)
  {
    var h := "AT+SMPUB=" + Quoted(topic);
    var n := IntToDecimal(length);
    var q := IntToDecimal(qos);
    var r := RetainFlag(retain);
    assert ',' !in h && ',' !in r;
    assert SmpubCommand(topic, length, qos, retain) == h + [','] + (n + [','] + (q + [','] + r));
    SplitAtSep(h, n + [','] + (q + [','] + r), ',');
    SplitAtSep(n, q + [','] + r, ',');
    SplitAtSep(q, r, ',');
    SplitNoSep(r, ',');
    DecimalRoundTrip(length);
  }
}
