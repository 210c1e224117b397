/**
 * The detector's options object, the defaults it falls back on, and how the
 * configured wait decides when an attempt's timeout callback runs.
 */
module Config {
  import opened Wrappers

  /** The serial wrapper: the host's chrome.serial, or one supplied by the caller. */
  datatype Transport = HostSerial | Custom(id: nat)

  /**
   * The constructor's argument: undefined or null, or an object whose
   * `waitTimeout` and `serialWrapper` properties may each be missing.
   */
  datatype Params = NoParams | Params(waitTimeout: Option<int>, serialWrapper: Option<Transport>)

  /** The wait, in milliseconds, when no `waitTimeout` is given. */
  const DEFAULT_WAIT: int := 100

  /** A property's value when it is present, the default otherwise. */
  function GetValue<T>(param: Option<T>, default: T): (v: T)
    ensures param.Some? ==> v == param.value
    ensures param.None? ==> v == default
  {
    match param
    case Some(x) => x
    case None => default
  }

  /** The wait the detector keeps: the given `waitTimeout`, else 100. */
  function ConfiguredWait(p: Params): (w: int)
    ensures p.Params? && p.waitTimeout.Some? ==> w == p.waitTimeout.value
    ensures p.NoParams? || p.waitTimeout.None? ==> w == DEFAULT_WAIT
  {
    if p.NoParams? then DEFAULT_WAIT else GetValue(p.waitTimeout, DEFAULT_WAIT)
  }

  /** The transport the detector keeps: the given `serialWrapper`, else the host's. */
  function ConfiguredTransport(p: Params): (t: Transport)
    ensures p.Params? && p.serialWrapper.Some? ==> t == p.serialWrapper.value
    ensures p.NoParams? || p.serialWrapper.None? ==> t == HostSerial
  {
    if p.NoParams? then HostSerial else GetValue(p.serialWrapper, HostSerial)
  }

  /**
   * When an attempt's timeout callback runs: at once, never, or from a timer
   * after `ms` milliseconds.
   */
  datatype TimeoutMode = Immediate | Never | After(ms: nat)

  /** The three ranges of the configured wait. */
  function ModeOf(waitTimeout: int): (m: TimeoutMode)
    ensures m == Immediate <==> -10 < waitTimeout < 0
    ensures m == Never <==> waitTimeout <= -10
    ensures m.After? <==> 0 <= waitTimeout
    ensures m.After? ==> m.ms == waitTimeout
  {
    if waitTimeout < 0 then
      if waitTimeout > -10 then Immediate else Never
    else
      After(waitTimeout)
  }
}
