/**
 * What one delivery of candidates does to the detector's books: the
 * counter, the attempts, and the two observers' logs.
 */
module Traces {
  import opened Devices
  import opened Config
  import opened Attempts
  import opened Status

  /** The part of the detector's state a scan changes. */
  datatype Trace = Trace(
    remaining: int,
    attempts: seq<Attempt>,
    statusLog: seq<Delivery<bool>>,
    confirmed: seq<Delivery<Device>>)

  /**
   * The books agree with each other: the counter is the number of attempts
   * still pending, an expired attempt's link is closed, the timeout mode
   * shapes which attempts have expired, and `told`/`last` summarise the
   * status log.
   */
  ghost predicate Consistent(t: Trace, told: bool, last: bool, mode: TimeoutMode)
  {
    Tallied(t.remaining, t.attempts)
    && ShapedBy(mode.Immediate?, mode.Never?, t.attempts)
    && Tracks(told, last, t.statusLog)
  }

  /** Empty books, with nothing reported, agree with each other in every mode. */
  lemma ConsistentInitially(mode: TimeoutMode)
    ensures Consistent(Trace(0, [], [], []), false, false, mode)
  {
  }

  /**
   * `after` is `before` followed by one handshake per candidate while
   * reporting is on: an attempt each, the counter raised unless every
   * timeout runs at once, each answering candidate forwarded, and the
   * status reported `true` once (or, in immediate mode, risen and fallen
   * once per candidate).
   */
  ghost predicate Spawns(before: Trace, after: Trace, candidates: seq<Device>, answering: set<Device>,
                         immediate: bool, deviceCb: Callback, statusCb: Callback)
  {
    after.attempts == before.attempts + Spawned(candidates, answering, immediate)
    && after.remaining == before.remaining + (if immediate then 0 else |candidates|)
    && after.confirmed == before.confirmed + Confirmations(candidates, answering, deviceCb)
    && after.statusLog == if immediate then before.statusLog + Pulses(statusCb, |candidates|)
      else if candidates == [] then before.statusLog
      else Reported(before.statusLog, statusCb, true)
  }

  /**
   * One more handshake, on the next candidate, extends the trace by that
   * candidate. In immediate mode the status observer was last told `false`
   * (or nothing), so the handshake's rise and fall are both reported.
   */
  lemma SpawnsStep(before: Trace, mid: Trace, after: Trace, candidates: seq<Device>, j: nat,
                   answering: set<Device>, immediate: bool, deviceCb: Callback, statusCb: Callback)
    requires j < |candidates|
    requires Spawns(before, mid, candidates[..j], answering, immediate, deviceCb, statusCb)
    requires immediate ==> mid.statusLog == [] || !mid.statusLog[|mid.statusLog| - 1].value
    requires var d := candidates[j];
      after.attempts == mid.attempts + [Attempt(d, d !in answering && !immediate, immediate)]
      && after.remaining == mid.remaining + (if immediate then 0 else 1)
      && after.confirmed == mid.confirmed + (if d in answering then [Delivery(deviceCb, d)] else [])
      && after.statusLog == if immediate
        then Reported(Reported(mid.statusLog, statusCb, true), statusCb, false)
        else Reported(mid.statusLog, statusCb, true)
    ensures Spawns(before, after, candidates[..j + 1], answering, immediate, deviceCb, statusCb)
  {
    SpawnedStep(before.attempts, candidates, j, answering, immediate);
    ConfirmationsStep(before.confirmed, candidates, j, answering, deviceCb);
    if immediate {
      RiseAndFall(mid.statusLog, statusCb);
      PulsesStep(before.statusLog, statusCb, j);
    }
  }

  /** A delivery of a single candidate is exactly one handshake. */
  lemma SpawnsSingle(before: Trace, after: Trace, d: Device, answering: set<Device>,
                     immediate: bool, deviceCb: Callback, statusCb: Callback)
    requires Spawns(before, after, [d], answering, immediate, deviceCb, statusCb)
    ensures after.attempts == before.attempts + [Attempt(d, d !in answering && !immediate, immediate)]
    ensures after.remaining == before.remaining + (if immediate then 0 else 1)
    ensures after.confirmed == before.confirmed + (if d in answering then [Delivery(deviceCb, d)] else [])
    ensures after.statusLog == if immediate
      then before.statusLog + [Delivery(statusCb, true), Delivery(statusCb, false)]
      else Reported(before.statusLog, statusCb, true)
  {
    assert [d][..0] == [];
  }
}
