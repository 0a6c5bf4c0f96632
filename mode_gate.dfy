/** The mode gate of the tracer entry point: the mode flag is checked
    before any kernel resource is touched, then a `switch` on it picks the
    code written at key 0 of the mode map. The spellings and codes come from
    the `domain` package, which is not part of this model, so they are
    parameters here. */
module ModeGate {
  import opened Common

  datatype Mode = Monitor | Trace

  /** `domain.TracerModeMonitor` and `domain.TracerModeTrace`. */
  datatype ModeNames = ModeNames(monitor: string, trace: string)

  /** `domain.TracerModeIndexMonitor` and `domain.TracerModeIndexTrace`. */
  datatype ModeCodes = ModeCodes(monitor: Uint32, trace: Uint32)

  datatype ModeError = ModeRequired | ModeInvalid(given: string)

  /** The text of each error. */
  function Message(e: ModeError): string
  {
    match e
    case ModeRequired => "[mode] flag is required"
    case ModeInvalid(given) => "[mode] flag is invalid: " + given
  }

  /** The two guards at the top of `Run`; `None` means both passed. */
  function CheckMode(flag: string, names: ModeNames): (r: Option<ModeError>)
    ensures r == None <==> flag != "" && (flag == names.monitor || flag == names.trace)
    ensures flag == "" ==> r == Some(ModeRequired)
    ensures r.Some? && flag != "" ==> r == Some(ModeInvalid(flag))
  {
    if flag == "" then Some(ModeRequired)
    else if flag != names.monitor && flag != names.trace then Some(ModeInvalid(flag))
    else None
  }

  /** The `switch tracerMode`: the trace case is tested first; `None` is the
      `default` branch, which only a flag the guards reject reaches. */
  function SelectMode(flag: string, names: ModeNames): (r: Option<Mode>)
    ensures r == Some(Trace) <==> flag == names.trace
    ensures r == Some(Monitor) <==> flag == names.monitor && flag != names.trace
    ensures r.None? ==> CheckMode(flag, names).Some?
  {
    if flag == names.trace then Some(Trace)
    else if flag == names.monitor then Some(Monitor)
    else None
  }

  /** The code written for each mode. */
  function ModeCode(m: Mode, codes: ModeCodes): Uint32
  {
    match m
    case Trace => codes.trace
    case Monitor => codes.monitor
  }

  /** Once the guards pass, the `default` branch cannot be taken, and the
      mode selected is the one the flag spells. */
  lemma SwitchAfterCheck(flag: string, names: ModeNames)
    requires CheckMode(flag, names) == None
    ensures SelectMode(flag, names).Some?
    ensures SelectMode(flag, names) == Some(Trace) ==> flag == names.trace
    ensures SelectMode(flag, names) == Some(Monitor) ==> flag == names.monitor && flag != names.trace
  {
  }

  /** The mode map after the write: key 0 holds the code, every other key
      is as before. */
  function WriteMode(modeMap: map<Uint32, Uint32>, code: Uint32): (r: map<Uint32, Uint32>)
    ensures r.Keys == modeMap.Keys + {0}
    ensures r[0] == code
    ensures forall k :: k in modeMap && k != 0 ==> r[k] == modeMap[k]
  {
    modeMap[0 := code]
  }
}
