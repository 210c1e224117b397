/**
 * The scan state machine: a detector that filters enumerated serial
 * devices by vendor, starts one ping handshake per candidate, counts the
 * handshakes whose timeout has not yet run, and reports an edge-triggered
 * "scanning" status and each device that answers the ping.
 *
 * The outside world drives it through method calls: a device list arriving
 * (`Scan`, `DeliverDevices`), a message reaching an attempt's listener
 * (`PingReply`) and an attempt's timer elapsing (`TimeoutFires`).
 */
module TappyDetector {
  import opened Devices
  import opened Config
  import opened Attempts
  import opened Status
  import opened Traces

  class Detector {
    const waitTimeout: int
    const serialWrapper: Transport

    var reportScans: bool
    var hasReported: bool
    var lastStatus: bool
    /** The outstanding-check counter. */
    var remaining: int
    /** The observer for confirmed devices (`cb`). */
    var deviceCb: Callback
    /** The observer for status changes (`statusCb`). */
    var statusCb: Callback

    /** Every handshake attempt spawned so far, as its closures hold it. */
    var attempts: seq<Attempt>
    /** Every call of the status observer, in order. */
    var statusLog: seq<Delivery<bool>>
    /** Every call of the device observer, in order. */
    var confirmed: seq<Delivery<Device>>

    /** The counter is the number of attempts whose timeout has not run; a timed-out attempt's link is closed. */
    ghost predicate Counted()
      reads this`remaining, this`attempts
    {
      Tallied(remaining, attempts)
    }

    /** In immediate mode every timeout has already run; in never mode none ever runs. */
    ghost predicate Shaped()
      reads this`attempts
    {
      ShapedBy(ModeOf(waitTimeout).Immediate?, ModeOf(waitTimeout).Never?, attempts)
    }

    /** `hasReported` says whether the status observer was ever called; `lastStatus` is the last value it got. */
    ghost predicate Logged()
      reads this`hasReported, this`lastStatus, this`statusLog
    {
      Tracks(hasReported, lastStatus, statusLog)
    }

    /** The state between two events: consistent, and the status observer is up to date. */
    ghost predicate Valid()
      reads this
    {
      Steady() && lastStatus == IsScanning()
    }

    /** `Counted`, `Shaped` and `Logged` at once. */
    ghost predicate Steady()
      reads this`remaining, this`attempts, this`hasReported, this`lastStatus, this`statusLog, this`confirmed
    {
      Consistent(Trace(remaining, attempts, statusLog, confirmed), hasReported, lastStatus, ModeOf(waitTimeout))
    }

    /** Since the trace `before`, one handshake per candidate ran while reporting was on. */
    ghost predicate Delivered(before: Trace, candidates: seq<Device>, answering: set<Device>)
      reads this`remaining, this`attempts, this`statusLog, this`confirmed, this`deviceCb, this`statusCb
    {
      Spawns(before, Snapshot(), candidates, answering, ModeOf(waitTimeout).Immediate?, deviceCb, statusCb)
    }

    /** The counter, the attempts and the two logs, as one value. */
    ghost function Snapshot(): (t: Trace)
      reads this`remaining, this`attempts, this`statusLog, this`confirmed
      ensures t.remaining == remaining && t.attempts == attempts
      ensures t.statusLog == statusLog && t.confirmed == confirmed
    {
      Trace(remaining, attempts, statusLog, confirmed)
    }

    /** Scanning means reporting is on and some attempt's timeout has not yet run. */
    function IsScanning(): (scanning: bool)
      reads this`reportScans, this`remaining
      ensures scanning ==> reportScans
      ensures reportScans ==> (scanning <==> remaining > 0)
    {
      reportScans && remaining > 0
    }

    /** While the counter is consistent, scanning means reporting is on and some timeout is still to run. */
    lemma ScanningMeansPending()
      requires Counted()
      ensures IsScanning() <==> reportScans && Outstanding(attempts) > 0
    {
    }

    constructor (params: Params)
      ensures waitTimeout == ConfiguredWait(params) && serialWrapper == ConfiguredTransport(params)
      ensures !reportScans && !hasReported && !lastStatus && remaining == 0
      ensures deviceCb == NoOp && statusCb == NoOp
      ensures attempts == [] && statusLog == [] && confirmed == []
      ensures Valid() && !IsScanning()
    {
      waitTimeout := ConfiguredWait(params);
      serialWrapper := ConfiguredTransport(params);
      reportScans, hasReported, lastStatus := false, false, false;
      deviceCb, statusCb := NoOp, NoOp;
      remaining := 0;
      attempts, statusLog, confirmed := [], [], [];
      ConsistentInitially(ModeOf(ConfiguredWait(params)));
    }

    /** Calls the status observer with `status`, whatever was reported before. */
    method RawNotifyStatus(status: bool)
      modifies this`statusLog
      ensures statusLog == old(statusLog) + [Delivery(statusCb, status)]
    {
      statusLog := statusLog + [Delivery(statusCb, status)];
    }

    /**
     * Reports the current status when forced, on the first report ever, or
     * when it differs from the last value reported; afterwards the detector
     * remembers the current status as the last one reported.
     */
    method NotifyStatus(always: bool)
      modifies this`hasReported, this`lastStatus, this`statusLog
      ensures hasReported && lastStatus == IsScanning()
      ensures statusLog == old(statusLog)
        + (if always || !old(hasReported) || IsScanning() != old(lastStatus)
           then [Delivery(statusCb, IsScanning())] else [])
      ensures always || old(Logged()) ==> Logged()
      ensures !always && old(Logged()) ==> statusLog == Reported(old(statusLog), statusCb, IsScanning())
    {
      var current := IsScanning();
      if always || !hasReported || current != lastStatus {
        hasReported := true;
        lastStatus := current;
        RawNotifyStatus(current);
      }
    }

    /**
     * A message reaches attempt `i`'s listener. A ping response while
     * reporting is on closes the link and forwards the device; anything else
     * (another response, a message that failed to resolve, or any message
     * after `Stop`) changes nothing. A reply never lowers the counter.
     */
    method PingReply(i: nat, isPing: bool)
      requires i < |attempts| && attempts[i].connected
      modifies this`attempts, this`confirmed
      ensures attempts == old(attempts)[i := old(attempts)[i].(connected := !(reportScans && isPing))]
      ensures confirmed == old(confirmed)
        + (if reportScans && isPing then [Delivery(deviceCb, old(attempts)[i].device)] else [])
      ensures old(Counted()) ==> Counted()
      ensures old(Valid()) ==> Valid()
    {
      if reportScans && isPing {
        OutstandingUpdate(attempts, i, attempts[i].(connected := false));
        var device := attempts[i].device;
        attempts := attempts[i := attempts[i].(connected := false)];
        confirmed := confirmed + [Delivery(deviceCb, device)];
      }
    }

    /**
     * Attempt `i`'s timeout callback runs: it lowers the counter by one,
     * closes the link, and reports the status only when the counter reaches
     * zero. It runs at most once per attempt, and never in never mode.
     */
    method TimeoutFires(i: nat)
      requires Counted() && Logged() && lastStatus == IsScanning()
      requires !ModeOf(waitTimeout).Never?
      requires i < |attempts| && !attempts[i].timedOut
      modifies this`remaining, this`attempts, this`hasReported, this`lastStatus, this`statusLog
      ensures remaining == old(remaining) - 1 >= 0
      ensures attempts == old(attempts)[i := old(attempts)[i].(connected := false, timedOut := true)]
      ensures statusLog == if remaining == 0 then Reported(old(statusLog), statusCb, false) else old(statusLog)
      ensures Counted() && Logged() && lastStatus == IsScanning()
      ensures old(Shaped()) ==> Shaped()
    {
      var expired := attempts[i].(connected := false, timedOut := true);
      OutstandingUpdate(attempts, i, expired);
      remaining := remaining - 1;
      attempts := attempts[i := expired];
      if remaining == 0 {
        NotifyStatus(false);
      }
    }

    /**
     * The start of a handshake on `d`: the new attempt's link is open and its
     * timeout has not run; the counter goes up by one and the status is reported.
     */
    method StartAttempt(d: Device) returns (i: nat)
      requires Counted() && Logged()
      modifies this`remaining, this`attempts, this`hasReported, this`lastStatus, this`statusLog
      ensures i == |old(attempts)| && attempts == old(attempts) + [Attempt(d, true, false)]
      ensures remaining == old(remaining) + 1
      ensures statusLog == Reported(old(statusLog), statusCb, reportScans)
      ensures Counted()
      ensures Logged()
      ensures lastStatus == IsScanning()
      ensures IsScanning() == reportScans
    {
      OutstandingAppend(attempts, Attempt(d, true, false));
      i := |attempts|;
      attempts := attempts + [Attempt(d, true, false)];
      remaining := remaining + 1;
      assert Counted();
      NotifyStatus(false);
    }

    /**
     * Everything a handshake does before it arranges the timeout: it starts
     * the attempt, connects and sends the ping. With `answersAtOnce` the
     * ping response reaches the listener before the connection call returns.
     */
    method Connect(d: Device, answersAtOnce: bool) returns (i: nat)
      requires Counted() && Logged()
      modifies this`remaining, this`attempts, this`hasReported, this`lastStatus, this`statusLog, this`confirmed
      ensures i == |old(attempts)|
      ensures attempts == old(attempts) + [Attempt(d, !(reportScans && answersAtOnce), false)]
      ensures remaining == old(remaining) + 1
      ensures confirmed == old(confirmed) + (if reportScans && answersAtOnce then [Delivery(deviceCb, d)] else [])
      ensures statusLog == Reported(old(statusLog), statusCb, reportScans)
      ensures Counted() && Logged() && lastStatus == IsScanning() == reportScans
    {
      ghost var atts0 := attempts;
      i := StartAttempt(d);
      if answersAtOnce {
        PingReply(i, true);
      }
      ReplaceLast(atts0, Attempt(d, true, false), Attempt(d, !(reportScans && answersAtOnce), false));
    }

    /**
     * Arranges attempt `i`'s timeout callback: in immediate mode it runs at
     * once; otherwise a timer runs it later (`TimeoutFires`), or nothing
     * ever does.
     */
    method CreateDisconnectTimeout(i: nat)
      requires Counted() && Logged() && lastStatus == IsScanning()
      requires i < |attempts| && !attempts[i].timedOut
      modifies this`remaining, this`attempts, this`hasReported, this`lastStatus, this`statusLog
      ensures ModeOf(waitTimeout).Immediate? ==>
        remaining == old(remaining) - 1
        && attempts == old(attempts)[i := old(attempts)[i].(connected := false, timedOut := true)]
        && statusLog == if remaining == 0 then Reported(old(statusLog), statusCb, false) else old(statusLog)
      ensures !ModeOf(waitTimeout).Immediate? ==> unchanged(this)
      ensures Counted() && Logged() && lastStatus == IsScanning()
    {
      if ModeOf(waitTimeout).Immediate? {
        TimeoutFires(i);
      }
    }

    /**
     * Starts one attempt on `d`: raises the counter, reports the status,
     * sends the ping and arranges the timeout. With `answersAtOnce` the
     * device's ping response arrives before the handshake returns (a
     * transport that answers synchronously); in immediate mode the timeout
     * callback runs before the handshake returns.
     */
    method Handshake(d: Device, answersAtOnce: bool)
      requires Steady()
      modifies this`remaining, this`attempts, this`hasReported, this`lastStatus, this`statusLog, this`confirmed
      ensures Valid()
      ensures var immediate := ModeOf(waitTimeout).Immediate?;
        attempts == old(attempts) + [Attempt(d, !(reportScans && answersAtOnce) && !immediate, immediate)]
        && remaining == old(remaining) + (if immediate then 0 else 1)
        && confirmed == old(confirmed) + (if reportScans && answersAtOnce then [Delivery(deviceCb, d)] else [])
        && statusLog == if immediate
          then Reported(Reported(old(statusLog), statusCb, reportScans), statusCb, false)
          else Reported(old(statusLog), statusCb, reportScans)
    {
      ghost var immediate := ModeOf(waitTimeout).Immediate?;
      if immediate {
        OutstandingAllExpired(attempts);
      }
      ghost var atts0 := attempts;
      var i := Connect(d, answersAtOnce);
      ghost var answered := reportScans && answersAtOnce;
      CreateDisconnectTimeout(i);
      ReplaceLast(atts0, Attempt(d, !answered, false), Attempt(d, !answered && !immediate, immediate));
    }

    /**
     * The enumeration callback. With no eligible device it calls the status
     * observer with `true` and then forces a report of the current status;
     * otherwise it hands the candidates to `HandshakeAll`.
     */
    method DeliverDevices(devices: seq<Device>, answering: set<Device>)
      requires Steady() && (lastStatus ==> IsScanning())
      modifies this`remaining, this`attempts, this`hasReported, this`lastStatus, this`statusLog, this`confirmed
      ensures Valid()
      ensures Filtered(devices) == [] ==>
        statusLog == old(statusLog) + [Delivery(statusCb, true), Delivery(statusCb, IsScanning())]
        && attempts == old(attempts) && remaining == old(remaining) && confirmed == old(confirmed)
      ensures Filtered(devices) != [] && !reportScans ==> unchanged(this)
      ensures Filtered(devices) != [] && reportScans ==>
        Delivered(old(Snapshot()), Filtered(devices), answering)
    {
      var filtered := FilterFtdi(devices);
      if filtered == [] {
        RawNotifyStatus(true);
        NotifyStatus(true);
      } else {
        HandshakeAll(filtered, answering);
      }
    }

    /**
     * One turn of `HandshakeAll`'s loop while reporting is on: the
     * handshake on the next candidate extends the delivery's trace by it.
     */
    method HandshakeNext(candidates: seq<Device>, j: nat, answering: set<Device>, ghost before: Trace)
      requires j < |candidates| && reportScans
      requires Steady() && (ModeOf(waitTimeout).Immediate? ==> !lastStatus)
      requires Delivered(before, candidates[..j], answering)
      modifies this`remaining, this`attempts, this`hasReported, this`lastStatus, this`statusLog, this`confirmed
      ensures Valid()
      ensures Delivered(before, candidates[..j + 1], answering)
    {
      ghost var mid := Snapshot();
      Handshake(candidates[j], candidates[j] in answering);
      SpawnsStep(before, mid, Snapshot(), candidates, j, answering, ModeOf(waitTimeout).Immediate?, deviceCb, statusCb);
    }

    /**
     * Starts one handshake per candidate, in order, checking before each
     * that reporting is still on. The status may lag a scan that has just
     * been turned on, but never claims a scan that is not running.
     */
    method HandshakeAll(candidates: seq<Device>, answering: set<Device>)
      requires candidates != []
      requires Steady() && (lastStatus ==> IsScanning())
      modifies this`remaining, this`attempts, this`hasReported, this`lastStatus, this`statusLog, this`confirmed
      ensures Valid()
      ensures !reportScans ==> unchanged(this)
      ensures reportScans ==>
        Delivered(old(Snapshot()), candidates, answering)
    {
      ghost var immediate := ModeOf(waitTimeout).Immediate?;
      if immediate {
        OutstandingAllExpired(attempts);
      }
      for j := 0 to |candidates|
        invariant Steady()
        invariant immediate ==> !lastStatus
        invariant !reportScans ==> unchanged(this)
        invariant reportScans && j > 0 ==> lastStatus == IsScanning()
        invariant reportScans ==>
          Delivered(old(Snapshot()), candidates[..j], answering)
      {
        if reportScans {
          HandshakeNext(candidates, j, answering, old(Snapshot()));
        }
      }
      assert candidates[..|candidates|] == candidates;
    }

    /** Turns reporting on and takes the device list the transport enumerates. */
    method Scan(devices: seq<Device>, answering: set<Device>)
      requires Valid()
      modifies this`reportScans, this`remaining, this`attempts, this`hasReported, this`lastStatus,
        this`statusLog, this`confirmed
      ensures Valid() && reportScans
      ensures ModeOf(waitTimeout).Immediate? ==> remaining == 0 && !IsScanning()
      ensures Filtered(devices) == [] ==>
        statusLog == old(statusLog) + [Delivery(statusCb, true), Delivery(statusCb, IsScanning())]
        && attempts == old(attempts) && remaining == old(remaining) && confirmed == old(confirmed)
        && IsScanning() == (old(remaining) > 0)
      ensures Filtered(devices) != [] ==>
        Delivered(old(Snapshot()), Filtered(devices), answering)
        && IsScanning() == !ModeOf(waitTimeout).Immediate?
    {
      reportScans := true;
      DeliverDevices(devices, answering);
      if ModeOf(waitTimeout).Immediate? {
        OutstandingAllExpired(attempts);
      }
    }

    /** Turns reporting off and reports the status if that ended a scan. */
    method Stop()
      requires Valid()
      modifies this`reportScans, this`hasReported, this`lastStatus, this`statusLog
      ensures Valid() && !reportScans && !IsScanning()
      ensures statusLog == Reported(old(statusLog), statusCb, false)
    {
      reportScans := false;
      NotifyStatus(false);
    }

    /** Replaces the device observer; later confirmations go to `cb` only. */
    method SetCallback(cb: Callback)
      modifies this`deviceCb
      ensures deviceCb == cb
      ensures old(Valid()) ==> Valid()
    {
      deviceCb := cb;
    }

    /** Replaces the status observer; later status calls go to `cb` only. */
    method SetStatusCallback(cb: Callback)
      modifies this`statusCb
      ensures statusCb == cb
      ensures old(Valid()) ==> Valid()
    {
      statusCb := cb;
    }
  }
}
