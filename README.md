# A verified model of the pi-nbiot Waveshare SIM7080G driver

`pi_nbiot/waveshare.py` drives a Waveshare SIM7080G NB-IoT HAT over a serial
line with AT commands. This project models its core in Dafny and proves
properties of the model:

- the `WaveshareNbiotHat` object: readiness probe, RF control, PDP context
  define/configure/activate, certificate upload for SSL, and the MQTT
  commands;
- the `DataService`, `AuthType` and `PdpAction` enumerations;
- the `PdpContext` record.

Layout, one module per file:

| file | module | what it holds |
|---|---|---|
| `wrappers.dfy` | `Wrappers` | `Option`, `Result`, `Outcome` |
| `text.dfy` | `Text` | Python's `strip`, `split(',')`, `replace`, `in` on strings and `str(int)`, with their laws |
| `framing.dfy` | `Framing` | how `at_command` cuts the inbound text into response lines (a pure function and the loop that computes it), and the modem's CR LF framing as its partner |
| `enums.dfy` | `Enums` | the three enumerations, their numbers, `is_ip` and the `__repr__` PDP type tokens |
| `commands.dfy` | `AtCommands` | every command string the driver builds, and where each value lands in it |
| `budget.dfy` | `Budget` | the waits computed after streaming a file or a payload |
| `errors.dfy` | `Errors` | one error kind per `raise` (and per `return False` of the RF methods), with its Python exception class |
| `exchange.dfy` | `Exchange` | the serial channel as a script of replies; operations as gated sequences of steps; the readiness probe |
| `registry.dfy` | `Registry` | the context record (`_pdp_contexts`, `_active_pdp_context`) and how define, configure, activate and the session checks use it |
| `operations.dfy` | `Operations` | each operation's steps and its whole effect on the channel (`DefineSpec`, `ConfigureSpec`, `ActivateSpec`, `SslSpec`, `MqttConnectSpec`), with lemmas about them |
| `walks.dfy` | `Walks` | the same steps as chains the driver walks one command at a time, and the proof that walking the chain is running the steps |
| `waveshare.dfy` | `Waveshare` | the classes `Device` (UART and power pin) and `Hat` (the driver object), whose methods are proved against the specifications above |

The modem's side of the serial line is a script: `device.inbox[k]` is the raw
text waiting at the driver's `k`-th read. An exhausted script is a silent
modem. The driver's side is a ghost log of events:

- commands written, with their settle delay;
- bytes streamed;
- explicit pauses;
- power-pin pulses.

The nine operation methods of `Hat` ensure `device.Performed(t, r)`:
`PdpContextDefine`, `PdpContextConfigure`, `PdpContextActivate`,
`PdpContextConfigureSsl`, `MqttConnect`, `MqttDisconnect`, `MqttSubscribe`,
`MqttUnsubscribe` and `MqttPublish`. Here `t` is the trace that the
operation's specification function gives for the old script. That one clause
says three things:

- the outcome is the trace's outcome;
- the script is consumed as the trace says;
- the log grew by exactly the trace's events.

The other methods are the pieces these are built from, and state less:

- `AtCommand`, `PowerOn` and `PowerOff` give the new script and the new log
  outright.
- `DisableRf`, `EnableRf`, `Expect`, `SendPayload`, `PutFileInFlash` and
  `CheckClock` take the rest of the walk as a ghost plan. Each ensures that
  walking its step and then that plan from the old state is the same as
  walking the plan from the new state when the step passes, and ends with
  its failure otherwise.
- `DefineExchange`, `SslExchange` and `MqttExchange` ensure that their
  outcome, script and log are those of walking their whole plan. The one
  exception is `MqttExchange` with `ssl` set: a walk that passes ends in
  `SslArgumentsMissing` instead.
- `Initialize`, `ProbeModule` and `Ready` ensure that their answer, script
  and log are those of `ProbeRun`.

Each method also states its new fields. The specifications' properties are
proved as lemmas.

The source's `raise` statements become `Fail(e)` outcomes. The error kinds
are named after the failing check, and `Errors.ExceptionClass` gives the
Python class of each.

Membership in a response keeps Python's two meanings apart:

- `'OK' in res` on the list of lines means a line equal to `OK`. This is
  `Exchange.Accepts`.
- At lines 253-254, `res` is a decoded string, so the same test is a
  substring test on the stripped text. This is `Exchange.TailAccepts`.

Quirks of the source that the model keeps as written:

- The enumeration members are written as annotations (`DUAL_PDN: 0`), so
  Python creates no members. The model has the intended members, with the
  numbers written beside them.
- `+CGDCONT` and `+CNCFG` write `str(data_service)` (`DataService.IP_V4`),
  not the `__repr__` token (`IP`). `EX_NONIP` has no token at all
  (`Enums.PdpType`, `Enums.ServiceStrIsNoPdpType`).
- The attach and APN queries are spelled `AT+GCATT?` and `AT+GCNAPN`.
- The `+CNCFG` fields are positional. With a username alone, the
  authentication number lands in the password field
  (`AtCommands.CncfgAuthPosition`).
- Activation's `+APP PDP:` confirmation is only logged.
- Deactivation clears the active context whichever context it was.
- `_rf_enabled` is never set.
- `_mqtt_connected` starts true.
- `+SMPUB` declares the payload length in characters, while the UTF-8 bytes
  are streamed (`Operations.PublishDeclaredLength`).
- The publish wait divides the length by the baud rate without the factor
  8 used for files.
- `mqtt_connect` with `ssl` calls `pdp_context_configure_ssl()` without its
  three arguments. That raises `TypeError` after the four `+SMCONF`
  settings, so with SSL the method never connects
  (`Operations.MqttConnectWithSslFails`).

Three defects are logged under "## Findings". The model gives both the
as-written and the corrected behaviour for each, and the `Hat` uses the
corrected one.

The straight-line operations are split into pieces, each one a method of
`Hat`: `DefineExchange`, `SslExchange`, `MqttExchange`, `PutFileInFlash`,
`CheckClock`, `SendPayload` and `Expect`. Each piece runs a stretch of the
source's code in the same order, with the same checks. The loop of
`initialize` is `Hat.ProbeModule`. The loops of `at_command` and
`pdp_context_activate`, and the loop over the clock response, are the
methods `Framing.ReadLines`, `Waveshare.FindRow` and
`Waveshare.AnyLineContaining`. Each loop is proved against a specification
function.

## Model

| member | source | states |
|---|---|---|
| Text.TrimStart | pi_nbiot/waveshare.py:134-135 | `lstrip()`: the leading whitespace is dropped; what is dropped and what is kept is stated by `TrimStartSpec` |
| Text.TrimEnd | pi_nbiot/waveshare.py:134-135 | `rstrip()`: the trailing whitespace is dropped; what is dropped and what is kept is stated by `TrimEndSpec` |
| Text.Strip | pi_nbiot/waveshare.py:134-135 | `strip()` as `lstrip` then `rstrip`; `StripSpec` and `StripIdempotent` state that the result is the input without its surrounding whitespace |
| Text.TrimStartSpec | pi_nbiot/waveshare.py:134-135 | `lstrip` removes exactly a leading run of whitespace and keeps the rest as a suffix that starts with a non-space |
| Text.TrimEndSpec | pi_nbiot/waveshare.py:134-135 | `rstrip` removes exactly a trailing run of whitespace and keeps the rest as a prefix that ends with a non-space |
| Text.StripSpec | pi_nbiot/waveshare.py:134-135 | `strip()` leaves no whitespace at either end, and is empty exactly for an all-whitespace string (the `if line.strip()` test) |
| Text.StripPadded | pi_nbiot/waveshare.py:253 | stripping whitespace padding around an already stripped text gives that text back |
| Text.StripIdempotent | pi_nbiot/waveshare.py:134-135 | stripping twice is stripping once |
| Text.ContainsAt | pi_nbiot/waveshare.py:254 | the substring test `'OK' in res` holds exactly when the pattern occurs at some index |
| Text.Split | pi_nbiot/waveshare.py:237 | `split(',')` always yields at least one field and no field holds the separator |
| Text.JoinSplit | pi_nbiot/waveshare.py:237 | joining the fields of a split with the separator restores the line |
| Text.SplitJoin | pi_nbiot/waveshare.py:237 | splitting separator-free fields joined by the separator gives the fields back |
| Text.RemoveAll | pi_nbiot/waveshare.py:237 | `replace('"', '')` removes every quote and keeps every other character, and returns a string without quotes unchanged |
| Text.RemoveAllAppend | pi_nbiot/waveshare.py:237 | removing the quotes from two strings joined is removing them from each and joining the results, so the characters kept stay in their order |
| Text.RemoveAllMultiset | pi_nbiot/waveshare.py:237 | removing the quotes keeps every other character exactly as often as it occurred and no quote at all |
| Text.NatToDecimal | pi_nbiot/waveshare.py:225 | formatting a number gives decimal digits without leading zeros |
| Text.IntToDecimal | pi_nbiot/waveshare.py:170 | formatting an int gives a non-empty field without comma, quote or CR, with a minus sign exactly for negatives |
| Text.DecimalRoundTrip | pi_nbiot/waveshare.py:247 | reading back a formatted number gives the number |
| Text.IntToDecimalInjective | pi_nbiot/waveshare.py:225 | different integers are formatted differently |
| Framing.FrameLines | pi_nbiot/waveshare.py:131-137 | the list `at_command` builds from the inbound text: each piece up to CR LF, stripped, blank ones dropped, in arrival order; `ReadLines` computes it and `FrameLinesClean`, `FrameLinesCount` and `FrameTransmit` state its properties |
| Framing.PieceLength | pi_nbiot/waveshare.py:133 | `read_until('\r\n')` takes a non-empty piece that fits in the remaining text |
| Framing.PieceEndsAtFirstCrLf | pi_nbiot/waveshare.py:133 | the piece ends right after the first CR LF |
| Framing.PieceWithoutCrLf | pi_nbiot/waveshare.py:133 | without a CR LF the piece is all the remaining text |
| Framing.ReadUntilCrLf | pi_nbiot/waveshare.py:133 | the scan for CR LF stops where `read_until` ends its piece |
| Framing.ReadLines | pi_nbiot/waveshare.py:131-137 | the read loop of `at_command` returns exactly the framed lines of the inbound text |
| Framing.FrameLinesClean | pi_nbiot/waveshare.py:134-135 | every returned line is non-empty and stripped |
| Framing.FrameLinesCount | pi_nbiot/waveshare.py:131-137 | there are no more lines than inbound characters |
| Framing.BlankGivesNoLines | pi_nbiot/waveshare.py:131-137 | no inbound data, or only whitespace, gives an empty list |
| Framing.FrameTransmit | pi_nbiot/waveshare.py:131-137 | framing recovers exactly the lines the modem sent with CR LF framing, in order |
| Enums.ServiceStr | pi_nbiot/waveshare.py:170 | `str(data_service)` of an Enum without `__str__`: the class name, a dot and the member name; `ServiceStrIsNoPdpType` shows it is never a PDP type token |
| Enums.PdpType | pi_nbiot/waveshare.py:24-32 | `__repr__`: the PDP type token for four members and nothing for EX_NONIP; `PdpTypeInjective` shows distinct members get distinct tokens |
| Enums.IsIp | pi_nbiot/waveshare.py:35-38 | `is_ip`: false for NONIP and EX_NONIP, true for the others; `IsIpMatchesPdpType` relates it to the PDP type token |
| Enums.IsIpMatchesPdpType | pi_nbiot/waveshare.py:24-38 | `is_ip` is false exactly for NONIP and EX_NONIP, and holds exactly when the `__repr__` token is an IP PDP type |
| Enums.PdpTypeInjective | pi_nbiot/waveshare.py:24-32 | the tokens of different services differ, and only EX_NONIP has none |
| Enums.ServiceStrIsNoPdpType | pi_nbiot/waveshare.py:170 | what `str(data_service)` writes is never a PDP type token |
| Enums.ServiceFromCode | pi_nbiot/waveshare.py:16-22 | a data service number is valid exactly from 0 to 4 |
| Enums.ServiceCodeRoundTrip | pi_nbiot/waveshare.py:16-22 | each service is recovered from its number |
| Enums.AuthFromCode | pi_nbiot/waveshare.py:41-45 | an authentication number is valid exactly from 0 to 3 |
| Enums.AuthCodeRoundTrip | pi_nbiot/waveshare.py:41-45 | each method is recovered from its number |
| Enums.ActionFromCode | pi_nbiot/waveshare.py:68-71 | an action number is valid exactly from 0 to 2 |
| Enums.ActionCodeRoundTrip | pi_nbiot/waveshare.py:68-71 | each action is recovered from its number |
| AtCommands.CgdcontCommand | pi_nbiot/waveshare.py:170 | the `+CGDCONT` command of `pdp_context_define`; `CgdcontFields` states where the id, the service and the APN land |
| AtCommands.CncfgCommand | pi_nbiot/waveshare.py:200-208 | the `+CNCFG` command built field by field; `CncfgFields`, `CncfgShape` and `CncfgAuthPosition` state its fields |
| AtCommands.CgdcontFields | pi_nbiot/waveshare.py:170 | `+CGDCONT` has exactly three fields: the id, the quoted service and the quoted APN |
| AtCommands.CncfgFields | pi_nbiot/waveshare.py:200-208 | the `+CNCFG` fields are the three fixed ones followed by the optional ones, in order |
| AtCommands.CncfgShape | pi_nbiot/waveshare.py:200-208 | a non-empty username is the fourth field; the password follows only when both are non-empty; `,,` comes only with a method and both empty; the method is the last field; with none of them the command ends at the quoted APN |
| AtCommands.CncfgAuthPosition | pi_nbiot/waveshare.py:201-208 | the method is the sixth field exactly when username and password are both given or both empty; otherwise it shifts into the password or username field |
| AtCommands.CnactCommand | pi_nbiot/waveshare.py:225 | the `+CNACT=` command of `pdp_context_activate`; `CnactRoundTrip` shows it parses back to the id and the action |
| AtCommands.CnactRoundTrip | pi_nbiot/waveshare.py:225 | `+CNACT={id},{action.value}` parses back to the id and the action |
| AtCommands.AddressField | pi_nbiot/waveshare.py:237 | the address is present exactly when the row has at least three fields, and holds no quote |
| AtCommands.AddressRoundTrip | pi_nbiot/waveshare.py:235-237 | the address written into a `+CNACT:` row is the address read back from it |
| AtCommands.CnactPrefixSelectsRow | pi_nbiot/waveshare.py:235 | for ids 0 to 3, the prefix `+CNACT: {id}` matches the row of that context and no other |
| AtCommands.CfswfileCommand | pi_nbiot/waveshare.py:247 | the `+CFSWFILE` command that opens a download of `size` bytes; `CfswfileFields` states its fields |
| AtCommands.CfswfileFields | pi_nbiot/waveshare.py:247 | `+CFSWFILE` has five fields, the quoted flash name second and the file size fourth |
| AtCommands.SmpubCommand | pi_nbiot/waveshare.py:347-348 | the `+SMPUB` command with the payload length and the retain flag as 1 or 0; `SmpubFields` states its fields |
| AtCommands.SmpubFields | pi_nbiot/waveshare.py:347-348 | `+SMPUB` has four fields: the quoted topic, the length, the QoS, and 1 or 0 exactly as `retain` is true or false |
| Budget.CeilDiv | pi_nbiot/waveshare.py:251 | `math.ceil(n / d)` is the least whole number whose multiple of `d` covers `n` |
| Budget.UploadWait | pi_nbiot/waveshare.py:251 | `ceil(size * 8 / baudrate)` seconds after a file upload; `UploadWaitCovers` and `UploadWaitMonotone` state its bounds |
| Budget.PublishWait | pi_nbiot/waveshare.py:352 | `ceil(len(payload) / baudrate)` seconds after a payload, without the factor 8; `PublishWaitBelowUploadWait` compares it with the upload wait |
| Budget.UploadWaitCovers | pi_nbiot/waveshare.py:251 | the upload wait covers the file's bits at 9600 baud by less than a second, and is zero only for an empty file |
| Budget.UploadWaitMonotone | pi_nbiot/waveshare.py:251 | a larger file never waits less |
| Budget.PublishWaitBelowUploadWait | pi_nbiot/waveshare.py:352 | the publish wait never exceeds the upload wait for as many bytes, and is at least a second for a non-empty payload |
| Exchange.Run | pi_nbiot/waveshare.py:168-183 | the checks of an operation one after the other, one read each, stopping at the first that fails with its error; `RunPasses`, `RunFails`, `RunAppend` and `RunScripted` state its behaviour |
| Exchange.ChainRun | pi_nbiot/waveshare.py:168-183 | walking an operation's checks one command at a time is running its step sequence |
| Exchange.RunPasses | pi_nbiot/waveshare.py:168-183 | an operation passes exactly when every check passes on its own read; it has then sent every command and consumed one read each |
| Exchange.RunFails | pi_nbiot/waveshare.py:168-183 | a failing operation stops at its first failing check, raises that check's error and has sent the commands up to it and no further |
| Exchange.RunAppend | pi_nbiot/waveshare.py:283-291 | running two command sequences in a row is running their concatenation |
| Exchange.RunScripted | pi_nbiot/waveshare.py:168-183 | a modem answering each command as its check requires lets the sequence pass and leaves the rest of its script unread |
| Exchange.ProbeRun | pi_nbiot/waveshare.py:103-115 | the `initialize` loop: up to `max_attempts` probes with `AT`, a power pulse after each probe without `OK`; `ProbeFindsOk`, `ProbeStopsAtFirstOk`, `ProbeAttempts` and `ProbeEventsPerAttempt` state its outcome |
| Exchange.ProbeExecRun | pi_nbiot/waveshare.py:104-114 | the probe loop continued after some attempts is the probe shifted by those attempts and their events |
| Exchange.ProbeFindsOk | pi_nbiot/waveshare.py:103-115 | the module counts as ready exactly when one of the first `max_attempts` responses holds an `OK` line |
| Exchange.ProbeStopsAtFirstOk | pi_nbiot/waveshare.py:106-110 | a successful probe ends with the first response holding `OK` |
| Exchange.ProbeAttempts | pi_nbiot/waveshare.py:105-107 | at most `max_attempts` probes are sent, all of them when the module never answers |
| Exchange.ProbeEventsPerAttempt | pi_nbiot/waveshare.py:106-113 | each probe consumes one read, and every failed probe is followed by a `power_on` pulse |
| Registry.NewContext | pi_nbiot/waveshare.py:48-61 | a new context has the given id, APN and service, no address, no credentials and is not configured |
| Registry.DefineAsWritten | pi_nbiot/waveshare.py:157-183 | the record after `pdp_context_define` as written: unchanged, since the context is never stored; `DefinedContextNotConfigurableAsWritten` shows the consequence |
| Registry.Define | pi_nbiot/waveshare.py:157-183 | the record after definition as evidently intended: the new context stored under its id; `DefinePreservesValid` states what it keeps |
| Registry.DefineGate | pi_nbiot/waveshare.py:161-166 | definition accepts exactly the ids 0 to 3 with a non-empty APN, and reports a bad id first |
| Registry.DefinePreservesValid | pi_nbiot/waveshare.py:157-183 | storing a defined context keeps the record valid and changes only that entry |
| Registry.ConfigureGate | pi_nbiot/waveshare.py:192-193 | configuration requires a defined context |
| Registry.ConfigureCommand | pi_nbiot/waveshare.py:195-208 | the `+CNCFG` command sent, with an APN or service not given taken from the stored context |
| Registry.Configure | pi_nbiot/waveshare.py:212-215 | the record after configuration: credentials and method stored, context configured; `ConfigurePreservesValid` states what it keeps |
| Registry.ConfigurePreservesValid | pi_nbiot/waveshare.py:212-215 | configuration keeps the record valid and makes the context configured; the APN, the service, the address and every other context are left as they were |
| Registry.ActivateGate | pi_nbiot/waveshare.py:220-224 | activation requires a defined and configured context, and reports an undefined one first |
| Registry.FirstWithPrefix | pi_nbiot/waveshare.py:234-239 | the row chosen is the first line starting with the prefix; without one, no line starts with it |
| Registry.ActivateEffect | pi_nbiot/waveshare.py:228-239 | the record update of activation; `ActivatePreservesValid`, `ActivateStoresListedAddress`, `ActivateIgnoresOtherRows` and `DeactivateClearsAnyActive` state its effect |
| Registry.ActivatePreservesValid | pi_nbiot/waveshare.py:228-239 | the record update of activation keeps the record valid |
| Registry.ActivateStoresListedAddress | pi_nbiot/waveshare.py:233-238 | when the first row of the context in the `+CNACT?` table carries an address, whatever lines come before or after it, activation stores that address, makes the context active and changes nothing else |
| Registry.ActivateIgnoresOtherRows | pi_nbiot/waveshare.py:234-235 | a table with no row of the context supplies no address: nothing changes, except that deactivation still clears |
| Registry.OtherRowsDoNotMatch | pi_nbiot/waveshare.py:235 | for ids 0 to 3, a table made only of rows of other contexts has no line that starts with the context's row prefix |
| Registry.DeactivateClearsAnyActive | pi_nbiot/waveshare.py:229-231 | deactivating an IP context forgets its address and clears the active context even when another one was active, and leaves that other context intact |
| Registry.SessionGate | pi_nbiot/waveshare.py:271-274 | the corrected session check passes exactly when some context is active and has a non-empty address |
| Registry.SessionGateAsWritten | pi_nbiot/waveshare.py:271-274 | the session check as written: `not self._active_pdp_context` also rejects the active context 0; `SessionGateRejectsContextZero` exhibits it |
| Registry.SessionGateRejectsContextZero | pi_nbiot/waveshare.py:271-274 | as written, the check refuses an active context 0 that has an address, which the corrected check accepts; for other contexts the two agree |
| Registry.DefinedContextNotConfigurableAsWritten | pi_nbiot/waveshare.py:157-193 | as written, a context just defined cannot be configured, because definition never stores it |
| Registry.DefineConfigureActivateScenario | tests/test_basic.py:8-16 | with the corrected definition, defining context 0 for `ciot`, configuring it and activating it makes context 0 the active IP context with the listed address; the corrected session check accepts it and the written one refuses it |
| Operations.DefineSpec | pi_nbiot/waveshare.py:157-183 | the whole of `pdp_context_define` on the serial line: the argument checks, then RF off, `+CGDCONT`, RF on, the attach query for an IP service and the APN query, each checked in turn; `DefineChecksFirst`, `DefineWithSilentModem`, `DefineWithCooperativeModem`, `AttachQueryOnlyForIp` and `NotAttachedOnlyForIp` state its behaviour |
| Operations.ConfigureSpec | pi_nbiot/waveshare.py:185-211 | the whole of `pdp_context_configure` on the serial line: the defined-context check, then the `+CNCFG` command, which must be answered `OK`; `ChecksPrecedeCommands` states its behaviour |
| Operations.ActivateSpec | pi_nbiot/waveshare.py:217-239 | the whole of `pdp_context_activate`: the checks, `+CNACT=`, and for an IP context not being deactivated the `+CNACT?` query, with the record update; `ActivateSpecPreservesValid`, `ActivateIgnoresConfirmation`, `ActivateNonIpChangesNothing` and `ChecksPrecedeCommands` state its behaviour |
| Operations.PutFilePlan | pi_nbiot/waveshare.py:241-258 | the steps of `_put_file_in_flash`: open the file system, open the download, stream and wait, close; `PutFileWithCooperativeModem` and `PutFileEvents` state its behaviour |
| Operations.SslGate | pi_nbiot/waveshare.py:265-274 | the checks of `pdp_context_configure_ssl` before any command: the three files exist, in order, then the corrected session check; `SessionChecksPrecedeCommands` states that a failed check sends nothing |
| Operations.SslSpec | pi_nbiot/waveshare.py:260-291 | the whole of `pdp_context_configure_ssl`: the checks (with the corrected session check), the clock query, the three uploads and the two conversions; `SessionChecksPrecedeCommands` states that it sends nothing exactly when a check fails, and `Walks.SslWalkRuns` that the method's walk performs its steps |
| Operations.MqttConnectSpec | pi_nbiot/waveshare.py:293-322 | the whole of `mqtt_connect`: the corrected session check, the four settings, then the failing SSL call or, without SSL, the connection; `MqttConnectWithSslFails` and `SessionChecksPrecedeCommands` state its behaviour |
| Operations.PublishPlanAsWritten | pi_nbiot/waveshare.py:341-356 | the steps of `mqtt_publish` as written, where any reply after the payload fails at line 354; `PublishAckFailsAsWritten` exhibits it |
| Operations.PublishPlan | pi_nbiot/waveshare.py:341-356 | the steps of `mqtt_publish` as evidently intended: the prompt check, then the payload streamed and any reply checked for `OK`; `PublishAckPasses`, `PublishAcknowledged` and `PublishAsWrittenRefinesIntended` state its behaviour |
| Operations.Utf8Length | pi_nbiot/waveshare.py:351 | `payload.encode()` has at least as many bytes as characters |
| Operations.PublishDeclaredLength | pi_nbiot/waveshare.py:348-351 | the declared character count equals the streamed byte count exactly for an ASCII payload |
| Operations.SilentModemFailsFirstCheck | pi_nbiot/waveshare.py:123-137 | a modem that never answers fails every checked operation at its first command, with nothing else sent |
| Operations.DefineWithSilentModem | pi_nbiot/waveshare.py:168-169 | with a silent modem, a valid definition fails because RF cannot be switched off, after sending only `AT+CFUN=0` |
| Operations.DefineChecksFirst | pi_nbiot/waveshare.py:161-166 | definition sends nothing exactly when its argument checks reject it, and then raises their error with the script unread |
| Operations.ChecksPrecedeCommands | pi_nbiot/waveshare.py:192-224 | configuration sends nothing exactly for an undefined context; activation sends nothing exactly for an undefined or unconfigured one and then changes nothing |
| Operations.SessionChecksPrecedeCommands | pi_nbiot/waveshare.py:265-274 | SSL setup sends nothing exactly when a file is missing or the session check fails; `mqtt_connect` sends nothing exactly when its session check fails |
| Operations.AttachQueryOnlyForIp | pi_nbiot/waveshare.py:176-179 | the attach query is sent only when defining an IP service |
| Operations.NotAttachedOnlyForIp | pi_nbiot/waveshare.py:176-179 | a definition fails for want of attachment only for an IP service |
| Operations.DefineWithCooperativeModem | pi_nbiot/waveshare.py:157-183 | a modem answering as expected lets a definition pass, with every command sent in order and one read consumed per command |
| Operations.ActivateSpecPreservesValid | pi_nbiot/waveshare.py:217-239 | activation as a whole keeps the record valid |
| Operations.ActivateIgnoresConfirmation | pi_nbiot/waveshare.py:225-227 | activation goes on the same way whether or not the answer to `+CNACT=` holds the `+APP PDP:` confirmation |
| Operations.ActivateNonIpChangesNothing | pi_nbiot/waveshare.py:228 | activating or deactivating a non-IP context passes, sends only the activation command and changes nothing |
| Operations.PayloadAckAccepted | pi_nbiot/waveshare.py:252-255 | the modem's `OK` after a payload is accepted by the upload's check and refused by the publish as written |
| Operations.PutFileWithCooperativeModem | pi_nbiot/waveshare.py:241-258 | a modem that opens the download and acknowledges the file lets an upload pass |
| Operations.PutFileAnswered | pi_nbiot/waveshare.py:243-258 | the replies `OK`, `DOWNLOAD`, a framed `OK` after the file and `OK` answer the four checks of an upload, one each |
| Operations.PutFileEvents | pi_nbiot/waveshare.py:243-256 | an upload sends `+CFSINIT` and `+CFSWFILE`, streams the file, waits its budget, then sends `+CFSTERM` |
| Operations.MqttConnectWithSslFails | pi_nbiot/waveshare.py:316-317 | with SSL, `mqtt_connect` always fails and never sends `AT+SMCONN` |
| Operations.PublishAckFailsAsWritten | pi_nbiot/waveshare.py:353-356 | as written, a publish whose prompt arrived fails as soon as any reply is waiting after the payload |
| Operations.PublishAckPasses | pi_nbiot/waveshare.py:353-356 | as intended, a publish whose prompt arrived passes when the reply after the payload is empty or contains `OK` |
| Operations.PromptFramed | pi_nbiot/waveshare.py:348-349 | the modem's framed `>` prompt is the single response line `>` |
| Operations.PublishAcknowledged | pi_nbiot/waveshare.py:348-356 | with a prompt and an `OK` acknowledgement, the written publish fails and the intended one passes |
| Operations.PublishAsWrittenRefinesIntended | pi_nbiot/waveshare.py:353-356 | whenever the written publish passes, so does the intended one; when nothing is waiting after the payload the two agree |
| Walks.DefineWalkRuns | pi_nbiot/waveshare.py:168-183 | once the arguments are accepted, the definition's chain of commands is its specification |
| Walks.SslWalkRuns | pi_nbiot/waveshare.py:275-291 | once the checks pass, the SSL setup's chain of commands is its specification |
| Walks.MqttConnectWalkRuns | pi_nbiot/waveshare.py:304-321 | once the session check passes, the connection's chain of commands is its specification, ending in `TypeError` after the settings with SSL |
| Walks.PublishWalkRuns | pi_nbiot/waveshare.py:348-356 | the publish's chain of commands is its step sequence |
| Waveshare.Hat.constructor | pi_nbiot/waveshare.py:76-84 | baud rate 9600, readiness and RF unknown, no contexts, none active, `_mqtt_connected` set |
| Waveshare.Hat.AtCommand | pi_nbiot/waveshare.py:123-137 | writes the command, returns the framed lines of the next reply and consumes that reply |
| Waveshare.Hat.PowerOn | pi_nbiot/waveshare.py:95-97 | one power-pin pulse, 1 s on and 5 s off, and nothing else |
| Waveshare.Hat.PowerOff | pi_nbiot/waveshare.py:99-101 | one power-pin pulse, 2 s on and 5 s off, and nothing else |
| Waveshare.Hat.DisableRf | pi_nbiot/waveshare.py:139-146 | true exactly when the response holds an `OK` line and a `+CPIN: NOT READY` line; never fails otherwise |
| Waveshare.Hat.EnableRf | pi_nbiot/waveshare.py:148-155 | true exactly when the response holds an `OK` line and a `+CPIN: READY` line; never fails otherwise |
| Waveshare.Hat.Expect | pi_nbiot/waveshare.py:170-173 | one command whose response must hold a given line, or the given error is raised |
| Waveshare.Hat.DefineExchange | pi_nbiot/waveshare.py:168-183 | performs the definition's chain of commands, stopping at the first failed check |
| Waveshare.Hat.PdpContextDefine | pi_nbiot/waveshare.py:157-183 | performs `DefineSpec`; on success stores the new context (corrected, see Findings); otherwise the record is unchanged; the record stays valid |
| Waveshare.Hat.PdpContextConfigure | pi_nbiot/waveshare.py:185-215 | performs `ConfigureSpec`; only an `OK` stores the credentials and marks the context configured; otherwise the record is unchanged |
| Waveshare.Hat.PdpContextActivate | pi_nbiot/waveshare.py:217-239 | performs `ActivateSpec` and leaves the record and the active context as it says; the record stays valid |
| Waveshare.Hat.SendPayload | pi_nbiot/waveshare.py:250-255 | streams the bytes, waits, and passes when nothing is waiting or, if allowed, the stripped text contains `OK` |
| Waveshare.Hat.PutFileInFlash | pi_nbiot/waveshare.py:241-258 | performs the upload's chain of commands, then goes on only if it passed |
| Waveshare.Hat.CheckClock | pi_nbiot/waveshare.py:275-282 | passes exactly when some line of the `+CCLK?` response contains `+CCLK: "` |
| Waveshare.Hat.PdpContextConfigureSsl | pi_nbiot/waveshare.py:260-291 | performs `SslSpec`: file checks, session check, clock check, three uploads and two conversions |
| Waveshare.Hat.SslExchange | pi_nbiot/waveshare.py:275-291 | performs the SSL setup's chain of commands |
| Waveshare.Hat.MqttConnect | pi_nbiot/waveshare.py:293-322 | performs `MqttConnectSpec`; `_mqtt_connected` is set on success and otherwise unchanged |
| Waveshare.Hat.MqttExchange | pi_nbiot/waveshare.py:304-321 | performs the settings and then either the `TypeError` of the SSL call or `+SMCONN` |
| Waveshare.Hat.MqttDisconnect | pi_nbiot/waveshare.py:324-328 | sends `+SMDISC`; `_mqtt_connected` is cleared exactly when it is acknowledged |
| Waveshare.Hat.MqttSubscribe | pi_nbiot/waveshare.py:330-334 | sends `+SMSUB` and requires an `OK` line |
| Waveshare.Hat.MqttUnsubscribe | pi_nbiot/waveshare.py:336-339 | sends `+SMUNSUB` and requires an `OK` line |
| Waveshare.Hat.MqttPublish | pi_nbiot/waveshare.py:341-356 | performs the intended publish: `+SMPUB`, the `>` prompt, the payload and its wait, and a reply that is empty or contains `OK` |
| Waveshare.Hat.Initialize | pi_nbiot/waveshare.py:103-115 | performs the probe; the result and `_ready` are true exactly when one of the first `max_attempts` responses holds `OK` |
| Waveshare.Hat.ProbeModule | pi_nbiot/waveshare.py:104-113 | the retry loop performs exactly the probe run |
| Waveshare.Hat.Ready | pi_nbiot/waveshare.py:117-121 | the first time, probes with three attempts and records the result; afterwards reports the recorded value without any I/O |
| Waveshare.AnyLineContaining | pi_nbiot/waveshare.py:277-280 | the loop over the clock response finds a line containing the text exactly when one exists |
| Waveshare.FindRow | pi_nbiot/waveshare.py:234-239 | the loop over the `+CNACT` table finds the first line starting with the prefix |

## Left out

- Serial port setup (`uart`, `power_pin`, the port name and pin number of `__init__`) is not modelled. The device is a reply script plus a ghost event log.
- The drain of unread input and its warning at the start of `at_command` (lines 124-128) are not modelled. Each read sees exactly one script entry.
- `sleep` is recorded as an event and not performed. The settle delay of `at_command` is recorded as whole milliseconds; the two values used are 0.1 s and 1 s.
- `math.ceil` over a float quotient is modelled by exact integer ceiling division. The two can differ only for sizes beyond float precision.
- The filesystem is reduced to the sizes of the three certificate files. `None` stands for a missing file, and file contents are not modelled. `os.path.getsize` is assumed to agree with `os.path.isfile`.
- Text decoding is not modelled. Replies are strings of characters, so a reply that is not valid UTF-8 (`UnicodeDecodeError`) is not modelled.
- Logging (`_log.*`) is not modelled. That includes the logged message for a missing activation confirmation.
- `gpiozero` is not modelled. A power-pin blink is one pulse event with its on and off times.
- The `isinstance` checks of `pdp_context_define` are not modelled, because they cannot fail on values of the model's types.
- The `PdpContext` constructor's fallbacks (`id or 0` and the others) are not modelled. They change nothing for the arguments the driver passes.
- `pdp_contexts` returns the driver's own dictionary, and `PdpContext` objects are shared by reference. The model holds contexts as values in a map that the `Hat` reassigns, so aliasing through those references is not modelled.
- Default argument values are not modelled: every parameter is explicit. `Ready` does pass `initialize`'s default of 3 attempts.
- The enumerations as Python actually defines them are not modelled. Their members are annotations, so `DataService.IP_V4` and `PdpAction.ACTIVATE`, the default arguments, do not exist as written. The model has the intended members.
- Waveshare.Hat.PdpContextDefine: stores the context as the operation evidently intends. The as-written record update is `Registry.DefineAsWritten`; see Findings.
- Waveshare.Hat.PdpContextConfigureSsl: uses the corrected session check `Registry.SessionGate`. The as-written check is `Registry.SessionGateAsWritten`; see Findings.
- Waveshare.Hat.MqttConnect: uses the corrected session check `Registry.SessionGate`, as above.
- Operations.SslGate: uses the corrected session check `Registry.SessionGate`, so an active context 0 with an address passes, where line 271 raises `SystemError`. The as-written check is `Registry.SessionGateAsWritten`; see Findings.
- Operations.SslSpec: inherits the corrected session check of `Operations.SslGate`, as above.
- Operations.MqttConnectSpec: uses the corrected session check `Registry.SessionGate`, so an active context 0 with an address passes, where line 300 raises `ValueError`. The as-written check is `Registry.SessionGateAsWritten`; see Findings.
- Waveshare.Hat.MqttPublish: reads the reply after the payload as evidently intended. The as-written plan is `Operations.PublishPlanAsWritten`; see Findings.

## Findings

| source | as written | input that shows it | evidently intended | confidence | as-written member | corrected member |
|---|---|---|---|---|---|---|
| pi_nbiot/waveshare.py:157-183 | a successful `pdp_context_define` never stores the new context in `_pdp_contexts` | `pdp_context_define(0, 'ciot')` answered as expected, then `pdp_context_configure(0)` raises `ValueError` "not defined", against tests/test_basic.py:11-14 | `_pdp_contexts[id] = PdpContext(id, apn, data_service)` once the module confirms the APN | high, not executed | Registry.DefinedContextNotConfigurableAsWritten | Registry.DefineConfigureActivateScenario |
| pi_nbiot/waveshare.py:271 | `if not self._active_pdp_context` is true for the active context 0 (also at line 300) | context 0 active with an address: `pdp_context_configure_ssl` raises "No active PDP context" and `mqtt_connect` raises "No valid PDP context" | `if self._active_pdp_context is None` | high, not executed | Registry.SessionGateRejectsContextZero | Registry.SessionGate |
| pi_nbiot/waveshare.py:354 | `self.uart.read(...)` returns bytes and `.encode()` is called on it, raising `AttributeError` whenever anything is waiting after the payload | `+SMPUB` answered with the prompt `>`, then the acknowledgement `OK` after the payload | `.decode().strip()`, then require `OK` as line 255 does for uploads | high, not executed | Operations.PublishAckFailsAsWritten | Operations.PublishAckPasses |
