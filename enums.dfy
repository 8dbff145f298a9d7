/** The enumerations of the driver: the data service of a PDP context, the
    authentication method, and the activation action. The source writes their
    members as annotations (`DUAL_PDN: 0`), which define no members at run
    time; the model has the intended members with the numbers written beside
    them. */
module Enums {
  import opened Wrappers

  /** The data service (PDP type) of a context, used by `+CGDCONT` and `+CNCFG`. */
  datatype DataService = DualPdn | IpV4 | IpV6 | NonIp | ExNonIp

  /** The number written beside each member. */
  function ServiceCode(s: DataService): (c: nat)
    ensures c <= 4
  {
    match s
    case DualPdn => 0
    case IpV4 => 1
    case IpV6 => 2
    case NonIp => 3
    case ExNonIp => 4
  }

  /** `DataService(c)`: the member with the given value. */
  function ServiceFromCode(c: int): (r: Option<DataService>)
    ensures r.Some? <==> 0 <= c <= 4
  {
    if c == 0 then Some(DualPdn)
    else if c == 1 then Some(IpV4)
    else if c == 2 then Some(IpV6)
    else if c == 3 then Some(NonIp)
    else if c == 4 then Some(ExNonIp)
    else None
  }

  lemma ServiceCodeRoundTrip(s: DataService)
    ensures ServiceFromCode(ServiceCode(s)) == Some(s)
  {
  }

  /** The member's name, as the `name` attribute gives it. */
  function ServiceName(s: DataService): string {
    match s
    case DualPdn => "DUAL_PDN"
    case IpV4 => "IP_V4"
    case IpV6 => "IP_V6"
    case NonIp => "NONIP"
    case ExNonIp => "EX_NONIP"
  }

  /** `str(data_service)`: an Enum without its own `__str__` prints as
      `ClassName.MEMBER`. This is what the commands at lines 170 and 200 write. */
  function ServiceStr(s: DataService): string {
    "DataService." + ServiceName(s)
  }

  /** `repr(data_service)`: the PDP type token of 3GPP TS 27.007 section 10.1.1,
      or nothing for `EX_NONIP`, for which `__repr__` falls through. */
  function PdpType(s: DataService): Option<string> {
    if ServiceName(s) == "NONIP" then Some("Non-IP")
    else if ServiceName(s) == "IP_V4" then Some("IP")
    else if ServiceName(s) == "IP_V6" then Some("IPV6")
    else if ServiceName(s) == "DUAL_PDN" then Some("IPV4V6")
    else None
  }

  /** The PDP types of 3GPP TS 27.007 section 10.1.1 that carry IP traffic. */
  const IpPdpTypes: set<string> := {"IP", "IPV6", "IPV4V6"}

  /** `DataService.is_ip`: false for the two non-IP members, true otherwise. */
  predicate IsIp(s: DataService) {
    ServiceName(s) !in ["NONIP", "EX_NONIP"]
  }

  /** `is_ip` agrees with the PDP type token: a service is IP-capable exactly
      when its token is one of the IP PDP types. */
  lemma IsIpMatchesPdpType(s: DataService)
    ensures IsIp(s) <==> PdpType(s).Some? && PdpType(s).value in IpPdpTypes
    ensures !IsIp(s) <==> s == NonIp || s == ExNonIp
  {
    match s
    case DualPdn =>
    case IpV4 =>
    case IpV6 =>
    case NonIp =>
    case ExNonIp =>
  }

  /** Different services have different tokens, and only `EX_NONIP` has none. */
  lemma PdpTypeInjective(a: DataService, b: DataService)
    ensures PdpType(a).None? <==> a == ExNonIp
    ensures PdpType(a).Some? && PdpType(a) == PdpType(b) ==> a == b
  {
  }

  /** What lines 170 and 200 write in the PDP type field is never a token of
      3GPP TS 27.007, because `str()` and not `repr()` formats the member. */
  lemma ServiceStrIsNoPdpType(s: DataService, t: DataService)
    ensures PdpType(t).Some? ==> ServiceStr(s) != PdpType(t).value
  {
    assert ServiceStr(s)[..12] == "DataService.";
    if PdpType(t).Some? {
      assert |PdpType(t).value| <= 6;
    }
  }

  /** The authentication method of `+CNCFG`. */
  datatype AuthType = NoAuth | Pap | Chap | PapChap

  /** `auth.value`, written as the last field of `+CNCFG`. */
  function AuthCode(a: AuthType): (c: nat)
    ensures c <= 3
  {
    match a
    case NoAuth => 0
    case Pap => 1
    case Chap => 2
    case PapChap => 3
  }

  /** `AuthType(c)`: the member with the given value. */
  function AuthFromCode(c: int): (r: Option<AuthType>)
    ensures r.Some? <==> 0 <= c <= 3
  {
    if c == 0 then Some(NoAuth)
    else if c == 1 then Some(Pap)
    else if c == 2 then Some(Chap)
    else if c == 3 then Some(PapChap)
    else None
  }

  lemma AuthCodeRoundTrip(a: AuthType)
    ensures AuthFromCode(AuthCode(a)) == Some(a)
  {
  }

  /** The action of `+CNACT`. */
  datatype PdpAction = Deactivate | Activate | AutoActivate

  /** `action.value`, written as the second field of `+CNACT`. */
  function ActionCode(a: PdpAction): (c: nat)
    ensures c <= 2
  {
    match a
    case Deactivate => 0
    case Activate => 1
    case AutoActivate => 2
  }

  /** `action.name`, expected in the `+APP PDP:` confirmation. */
  function ActionName(a: PdpAction): string {
    match a
    case Deactivate => "DEACTIVATE"
    case Activate => "ACTIVATE"
    case AutoActivate => "AUTO_ACTIVATE"
  }

  /** `PdpAction(c)`: the member with the given value. */
  function ActionFromCode(c: int): (r: Option<PdpAction>)
    ensures r.Some? <==> 0 <= c <= 2
  {
    if c == 0 then Some(Deactivate)
    else if c == 1 then Some(Activate)
    else if c == 2 then Some(AutoActivate)
    else None
  }

  lemma ActionCodeRoundTrip(a: PdpAction)
    ensures ActionFromCode(ActionCode(a)) == Some(a)
  {
  }
}
