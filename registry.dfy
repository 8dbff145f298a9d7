/** The driver's record of PDP contexts and of the active one, and how the
    context operations change it. The record is the dictionary
    `_pdp_contexts` (context id to `PdpContext`) and `_active_pdp_context`. */
module Registry {
  import opened Wrappers
  import opened Text
  import opened Enums
  import opened Errors
  import opened AtCommands

  /** `PdpContext`: what the driver knows about one context. */
  datatype PdpContext = PdpContext(
    id: int,
    apn: string,
    dataService: DataService,
    ipAddress: Option<string>,
    configured: bool,
    username: Option<string>,
    password: Option<string>,
    auth: Option<AuthType>)
  {
    /** `PdpContext.is_ip`. */
    predicate IsIpContext() {
      IsIp(dataService)
    }
  }

  /** `PdpContext(id, apn, data_service)`: no address, not configured, no
      credentials. (The constructor's fallbacks `id or 0`, `apn or ''` and
      `data_service or DataService.IP` change nothing for the arguments the
      driver passes: a valid id, a non-empty APN and an enumeration member.) */
  function NewContext(id: int, apn: string, s: DataService): (c: PdpContext)
    ensures c.id == id && c.apn == apn && c.dataService == s
    ensures c.ipAddress.None? && !c.configured
    ensures c.username.None? && c.password.None? && c.auth.None?
  {
    PdpContext(id, apn, s, None, false, None, None, None)
  }

  type Contexts = map<int, PdpContext>

  /** What the driver's operations keep true of the record: contexts are
      stored under their own id, which is 0 to 3, with a non-empty APN; a
      context has credentials exactly when it is configured; only a
      configured IP context has an address; and the active context is one of
      the stored ones. */
  predicate Valid(contexts: Contexts, active: Option<int>) {
    && (forall id :: id in contexts ==> ContextValid(id, contexts[id]))
    && (active.Some? ==> active.value in contexts)
  }

  predicate ContextValid(id: int, c: PdpContext) {
    && 0 <= id <= 3 && c.id == id && c.apn != ""
    && (c.configured <==> c.username.Some? && c.password.Some?)
    && (c.ipAddress.Some? ==> c.configured && c.IsIpContext())
  }

  // ---------------------------------------------------------------------------
  // pdp_context_define
  // ---------------------------------------------------------------------------

  /** The argument checks of `pdp_context_define`: an id from 0 to 3 and a
      non-empty APN. (The type checks on `id`, `apn` and `data_service` cannot
      fail on values of the model's types.) */
  function DefineGate(id: int, apn: string): (r: Option<Error>)
    ensures r == None <==> 0 <= id <= 3 && apn != ""
    ensures r == Some(BadId) <==> !(0 <= id <= 3)
  {
    if !(0 <= id <= 3) then Some(BadId)
    else if apn == "" then Some(BadApn)
    else None
  }

  /** The record after a successful `pdp_context_define` as the source has it:
      the context is never stored. */
  function DefineAsWritten(contexts: Contexts, id: int, apn: string, s: DataService): Contexts {
    contexts
  }

  /** The record after a successful definition as the operation evidently
      intends: the context is stored under its id, replacing any earlier one. */
  function Define(contexts: Contexts, id: int, apn: string, s: DataService): Contexts {
    contexts[id := NewContext(id, apn, s)]
  }

  /** Definition keeps the record valid and changes only the defined entry. */
  lemma DefinePreservesValid(contexts: Contexts, active: Option<int>, id: int, apn: string, s: DataService)
    requires Valid(contexts, active)
    requires DefineGate(id, apn).None?
    ensures Valid(Define(contexts, id, apn, s), active)
    ensures id in Define(contexts, id, apn, s)
    ensures forall k :: k != id ==> (k in Define(contexts, id, apn, s) <==> k in contexts)
    ensures forall k :: k != id && k in contexts ==> Define(contexts, id, apn, s)[k] == contexts[k]
  {
  }

  // ---------------------------------------------------------------------------
  // pdp_context_configure
  // ---------------------------------------------------------------------------

  /** `pdp_context_configure` requires the context to be defined. */
  function ConfigureGate(contexts: Contexts, id: int): (r: Option<Error>)
    ensures r.None? <==> id in contexts
    ensures r.Some? ==> r.value == NotDefined
  {
    if id !in contexts then Some(NotDefined) else None
  }

  /** The `+CNCFG` command `pdp_context_configure` sends: an APN or a service
      that is not given (the empty APN, no service) is taken from the stored
      context. */
  function ConfigureCommand(contexts: Contexts, id: int, apn: string, s: Option<DataService>,
                            username: string, password: string, auth: Option<AuthType>): string
    requires id in contexts
  {
    var c := contexts[id];
    CncfgCommand(id, if s.Some? then s.value else c.dataService, if apn != "" then apn else c.apn,
                 username, password, auth)
  }

  /** The record after a successful configuration: the credentials and the
      method are stored and the context is configured. The APN and service
      sent are not stored. */
  function Configure(contexts: Contexts, id: int, username: string, password: string,
                     auth: Option<AuthType>): Contexts
    requires id in contexts
  {
    contexts[id := contexts[id].(username := Some(username), password := Some(password),
                                 auth := auth, configured := true)]
  }

  /** Configuration keeps the record valid and leaves the APN, the service and
      the address of the context and every other context as they were. */
  lemma ConfigurePreservesValid(contexts: Contexts, active: Option<int>, id: int,
                                username: string, password: string, auth: Option<AuthType>)
    requires Valid(contexts, active) && id in contexts
    ensures var after := Configure(contexts, id, username, password, auth);
            && Valid(after, active)
            && after.Keys == contexts.Keys
            && after[id].configured
            && after[id].apn == contexts[id].apn && after[id].dataService == contexts[id].dataService
            && after[id].ipAddress == contexts[id].ipAddress
            && (forall k :: k in contexts && k != id ==> after[k] == contexts[k])
  {
  }

  // ---------------------------------------------------------------------------
  // pdp_context_activate
  // ---------------------------------------------------------------------------

  /** `pdp_context_activate` requires the context to be defined and configured. */
  function ActivateGate(contexts: Contexts, id: int): (r: Option<Error>)
    ensures r.None? <==> id in contexts && contexts[id].configured
    ensures r == Some(NotDefined) <==> id !in contexts
  {
    if id !in contexts then Some(NotDefined)
    else if !contexts[id].configured then Some(NotConfigured)
    else None
  }

  /** The index of the first line that starts with `prefix`, if any. */
  function FirstWithPrefix(lines: seq<string>, prefix: string): (r: Option<nat>)
    ensures r.Some? ==> r.value < |lines| && StartsWith(lines[r.value], prefix)
    ensures r.Some? ==> forall j :: 0 <= j < r.value ==> !StartsWith(lines[j], prefix)
    ensures r.None? ==> forall j :: 0 <= j < |lines| ==> !StartsWith(lines[j], prefix)
    decreases |lines|
  {
    if lines == [] then None
    else if StartsWith(lines[0], prefix) then Some(0)
    else match FirstWithPrefix(lines[1..], prefix)
      case None => None
      case Some(i) => Some(i + 1)
  }

  /** The record after `pdp_context_activate` once its command has been sent.
      Only an IP context changes. Deactivation forgets its address and clears
      the active context, whichever context that was. Any other action takes
      the address from the first line of `table` (the response to the
      `+CNACT` read command) that starts with the context's row prefix, and
      makes the context active; a row with fewer than three fields raises
      `IndexError` before anything changes, and without a row nothing
      changes. */
  function ActivateEffect(contexts: Contexts, active: Option<int>, id: int, action: PdpAction,
                          table: seq<string>): Result<(Contexts, Option<int>), Error>
    requires id in contexts
  {
    var c := contexts[id];
    if !c.IsIpContext() then Ok((contexts, active))
    else if action == Deactivate then Ok((contexts[id := c.(ipAddress := None)], None))
    else match FirstWithPrefix(table, CnactPrefix(id))
      case None => Ok((contexts, active))
      case Some(i) =>
        match AddressField(table[i])
        case None => Err(AddressFieldMissing)
        case Some(address) => Ok((contexts[id := c.(ipAddress := Some(address))], Some(id)))
  }

  /** Whether the `+CNACT` read command is sent: for an IP context, unless it
      is being deactivated. */
  predicate QueriesTable(c: PdpContext, action: PdpAction) {
    c.IsIpContext() && action != Deactivate
  }

  /** Activation, after the gate, keeps the record valid. */
  lemma ActivatePreservesValid(contexts: Contexts, active: Option<int>, id: int, action: PdpAction,
                               table: seq<string>)
    requires Valid(contexts, active)
    requires ActivateGate(contexts, id).None?
    ensures ActivateEffect(contexts, active, id, action, table).Ok? ==>
              Valid(ActivateEffect(contexts, active, id, action, table).value.0,
                    ActivateEffect(contexts, active, id, action, table).value.1)
  {
  }

  /** When the modem lists the context with an address, after any number of
      lines of other contexts and before anything at all, activation stores
      that address, makes the context active and changes nothing else. */
  lemma ActivateStoresListedAddress(contexts: Contexts, active: Option<int>, id: int,
                                    action: PdpAction, pre: seq<string>, state: int,
                                    address: string, post: seq<string>)
    requires Valid(contexts, active) && id in contexts && contexts[id].IsIpContext()
    requires action != Deactivate
    requires ',' !in address && '"' !in address
    requires forall j :: 0 <= j < |pre| ==> !StartsWith(pre[j], CnactPrefix(id))
    ensures var r := ActivateEffect(contexts, active, id, action, pre + [CnactRow(id, state, address)] + post);
            r.Ok? && r.value.1 == Some(id) && r.value.0[id].ipAddress == Some(address)
            && r.value.0 == contexts[id := contexts[id].(ipAddress := Some(address))]
  {
    var row := CnactRow(id, state, address);
    var table := pre + [row] + post;
    assert StartsWith(row, CnactPrefix(id)) by { assert row[..|CnactPrefix(id)|] == CnactPrefix(id); }
    assert table[|pre|] == row;
    var found := FirstWithPrefix(table, CnactPrefix(id));
    assert found.Some?;
    assert found.value == |pre|;
    AddressRoundTrip(id, state, address);
  }

  /** A table in which no line starts with the context's row prefix supplies
      no address: only deactivation of an IP context changes the record. */
  lemma ActivateIgnoresOtherRows(contexts: Contexts, active: Option<int>, id: int,
                                 action: PdpAction, table: seq<string>)
    requires id in contexts
    requires forall j :: 0 <= j < |table| ==> !StartsWith(table[j], CnactPrefix(id))
    ensures ActivateEffect(contexts, active, id, action, table) ==
            (if contexts[id].IsIpContext() && action == Deactivate
             then Ok((contexts[id := contexts[id].(ipAddress := None)], None))
             else Ok((contexts, active)))
  {
  }

  /** With ids 0 to 3, a table made of rows of other contexts has no line
      that starts with the context's row prefix. */
  lemma OtherRowsDoNotMatch(id: int, rows: seq<(int, int, string)>, table: seq<string>)
    requires 0 <= id <= 3 && |table| == |rows|
    requires forall j :: 0 <= j < |rows| ==> 0 <= rows[j].0 <= 3 && rows[j].0 != id
    requires forall j :: 0 <= j < |rows| ==> table[j] == CnactRow(rows[j].0, rows[j].1, rows[j].2)
    ensures forall j :: 0 <= j < |table| ==> !StartsWith(table[j], CnactPrefix(id))
  {
    forall j | 0 <= j < |table|
      ensures !StartsWith(table[j], CnactPrefix(id))
    {
      CnactPrefixSelectsRow(id, rows[j].0, rows[j].1, rows[j].2);
    }
  }

  /** Deactivating an IP context forgets its address and clears the active
      context even when another context was the active one. */
  lemma DeactivateClearsAnyActive(contexts: Contexts, id: int, other: int)
    requires id in contexts && other in contexts && id != other
    requires contexts[id].IsIpContext()
    ensures var r := ActivateEffect(contexts, Some(other), id, Deactivate, []);
            r.Ok? && r.value.1 == None && r.value.0[id].ipAddress.None?
            && r.value.0[other] == contexts[other]
  {
  }

  // ---------------------------------------------------------------------------
  // The session checks of pdp_context_configure_ssl and mqtt_connect
  // ---------------------------------------------------------------------------

  /** `not ip_address`: no address, or the empty one. */
  predicate HasAddress(c: PdpContext) {
    c.ipAddress.Some? && c.ipAddress.value != ""
  }

  /** The checks as written (lines 271-274 and 300-303): `not
      self._active_pdp_context` holds for no active context and also for
      the active context 0; then the active context needs an address. */
  function SessionGateAsWritten(contexts: Contexts, active: Option<int>,
                                noContext: Error, noAddress: Error): Option<Error>
    requires active.Some? ==> active.value in contexts
  {
    if active.None? || active.value == 0 then Some(noContext)
    else if !HasAddress(contexts[active.value]) then Some(noAddress)
    else None
  }

  /** The checks as evidently intended: some context is active, and it has an
      address. */
  function SessionGate(contexts: Contexts, active: Option<int>,
                       noContext: Error, noAddress: Error): (r: Option<Error>)
    requires active.Some? ==> active.value in contexts
    ensures r.None? <==> active.Some? && HasAddress(contexts[active.value])
    ensures r == Some(noContext) ==> active.None? || noContext == noAddress
  {
    if active.None? then Some(noContext)
    else if !HasAddress(contexts[active.value]) then Some(noAddress)
    else None
  }

  /** The check as written refuses context 0 even when it is active with an
      address, while the intended check accepts it; for the other contexts
      the two agree. */
  lemma SessionGateRejectsContextZero(contexts: Contexts, active: Option<int>, e1: Error, e2: Error)
    requires active.Some? ==> active.value in contexts
    ensures active == Some(0) && HasAddress(contexts[0]) ==>
              SessionGateAsWritten(contexts, active, e1, e2) == Some(e1) && SessionGate(contexts, active, e1, e2).None?
    ensures active != Some(0) ==> SessionGateAsWritten(contexts, active, e1, e2) == SessionGate(contexts, active, e1, e2)
  {
  }

  // ---------------------------------------------------------------------------
  // The usage of the test: define, configure, activate context 0
  // ---------------------------------------------------------------------------

  /** As written, a context that has just been defined cannot be configured,
      because definition never stores it. */
  lemma DefinedContextNotConfigurableAsWritten(id: int, apn: string, s: DataService)
    requires DefineGate(id, apn).None?
    ensures ConfigureGate(DefineAsWritten(map[], id, apn, s), id) == Some(NotDefined)
  {
  }

  /** With definition storing the context, defining context 0 for the APN
      `ciot` (the default service, IP), configuring it without credentials
      and activating it while the modem lists it with an address leaves
      context 0 active, with that address, as an IP context. */
  lemma DefineConfigureActivateScenario(address: string)
    requires address != "" && ',' !in address && '"' !in address
    ensures var defined := Define(map[], 0, "ciot", IpV4);
            && ConfigureGate(defined, 0).None?
            && var configured := Configure(defined, 0, "", "", None);
            && ActivateGate(configured, 0).None?
            && var r := ActivateEffect(configured, None, 0, Activate, [CnactRow(0, 1, address)]);
            && r.Ok? && r.value.1 == Some(0)
            && 0 in r.value.0 && r.value.0[0].IsIpContext()
            && r.value.0[0].ipAddress == Some(address)
            && SessionGate(r.value.0, r.value.1, NoActiveContext, NoIpAddress).None?
            && SessionGateAsWritten(r.value.0, r.value.1, NoActiveContext, NoIpAddress) == Some(NoActiveContext)
  {
    var defined := Define(map[], 0, "ciot", IpV4);
    var configured := Configure(defined, 0, "", "", None);
    assert Valid(configured, None);
    ActivateStoresListedAddress(configured, None, 0, Activate, [], 1, address, []);
  }
}
