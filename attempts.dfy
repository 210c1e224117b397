/**
 * Handshake attempts. Each attempt lives in the closures the detector hands
 * to its link and to its timer: the device it probes, whether its link is
 * still open, and whether its timeout callback has already run.
 */
module Attempts {
  import opened Devices

  datatype Attempt = Attempt(device: Device, connected: bool, timedOut: bool)

  /** Every attempt's timeout callback has run. */
  ghost predicate AllExpired(atts: seq<Attempt>)
  {
    forall k :: 0 <= k < |atts| ==> atts[k].timedOut
  }

  /** No attempt's timeout callback has run. */
  ghost predicate NoneExpired(atts: seq<Attempt>)
  {
    forall k :: 0 <= k < |atts| ==> !atts[k].timedOut
  }

  /** The timeout callback closes the link, so an expired attempt is disconnected. */
  ghost predicate ExpiredAreClosed(atts: seq<Attempt>)
  {
    forall k :: 0 <= k < |atts| && atts[k].timedOut ==> !atts[k].connected
  }

  /**
   * The counter agrees with the attempts: it is the number whose timeout
   * callback has not run, and an expired attempt's link is closed.
   */
  ghost predicate Tallied(remaining: int, atts: seq<Attempt>)
  {
    remaining == Outstanding(atts) && ExpiredAreClosed(atts)
  }

  /** In immediate mode every timeout has already run; in never mode none ever runs. */
  ghost predicate ShapedBy(immediate: bool, never: bool, atts: seq<Attempt>)
  {
    (immediate ==> AllExpired(atts)) && (never ==> NoneExpired(atts))
  }

  /** An attempt still holds one unit of the outstanding-check counter until its timeout callback runs. */
  function Pending(a: Attempt): nat
  {
    if a.timedOut then 0 else 1
  }

  /** The positions of the attempts whose timeout callback has not run. */
  function PendingAt(atts: seq<Attempt>): (ks: set<int>)
  {
    set k | 0 <= k < |atts| && !atts[k].timedOut
  }

  /** How many attempts have not yet had their timeout callback run. */
  function Outstanding(atts: seq<Attempt>): (n: nat)
  {
    |PendingAt(atts)|
  }

  /** Replacing the newest attempt. */
  lemma ReplaceLast(atts: seq<Attempt>, a: Attempt, b: Attempt)
    ensures (atts + [a])[|atts| := b] == atts + [b]
  {
  }

  /** Spawning one more attempt adds its own share to the count. */
  lemma OutstandingAppend(atts: seq<Attempt>, a: Attempt)
    ensures Outstanding(atts + [a]) == Outstanding(atts) + Pending(a)
  {
    if a.timedOut {
      assert PendingAt(atts + [a]) == PendingAt(atts);
    } else {
      assert PendingAt(atts + [a]) == PendingAt(atts) + {|atts|};
    }
  }

  /** Position `i` is pending exactly when attempt `i`'s timeout has not run. */
  lemma PendingSplit(atts: seq<Attempt>, i: nat)
    requires i < |atts|
    ensures PendingAt(atts) == (PendingAt(atts) - {i}) + (if atts[i].timedOut then {} else {i})
  {
  }

  /** Replacing attempt `i` leaves the other positions as they were. */
  lemma PendingOthers(atts: seq<Attempt>, i: nat, a: Attempt)
    requires i < |atts|
    ensures PendingAt(atts[i := a]) - {i} == PendingAt(atts) - {i}
  {
  }

  /**
   * Replacing one attempt changes the count by the difference of the two
   * shares: a timeout lowers it by one, closing a link leaves it alone.
   */
  lemma OutstandingUpdate(atts: seq<Attempt>, i: nat, a: Attempt)
    requires i < |atts|
    ensures Outstanding(atts[i := a]) == Outstanding(atts) - Pending(atts[i]) + Pending(a)
  {
    PendingSplit(atts, i);
    PendingSplit(atts[i := a], i);
    PendingOthers(atts, i, a);
  }

  /** Once every timeout callback has run, nothing is outstanding. */
  lemma OutstandingAllExpired(atts: seq<Attempt>)
    requires AllExpired(atts)
    ensures Outstanding(atts) == 0
  {
    assert PendingAt(atts) == {};
  }

  /** While no timeout callback has run, every attempt ever spawned is outstanding. */
  lemma {:induction false} OutstandingNoneExpired(atts: seq<Attempt>)
    requires NoneExpired(atts)
    ensures Outstanding(atts) == |atts|
  {
    if atts != [] {
      var n := |atts| - 1;
      OutstandingNoneExpired(atts[..n]);
      OutstandingAppend(atts[..n], atts[n]);
      assert atts[..n] + [atts[n]] == atts;
    }
  }

  /**
   * The attempts one delivery of candidates spawns while scanning: one per
   * candidate, in order. A candidate in `answering` replies to its ping before
   * the handshake returns, which closes its link; in immediate mode the
   * timeout callback also runs before the handshake returns.
   */
  function Spawned(candidates: seq<Device>, answering: set<Device>, immediate: bool): (r: seq<Attempt>)
    ensures |r| == |candidates|
  {
    if candidates == [] then []
    else
      var d := candidates[|candidates| - 1];
      Spawned(candidates[..|candidates| - 1], answering, immediate)
        + [Attempt(d, d !in answering && !immediate, immediate)]
  }

  /** One more candidate spawns one more attempt, after those of the candidates before it. */
  lemma SpawnedStep(base: seq<Attempt>, candidates: seq<Device>, j: nat, answering: set<Device>, immediate: bool)
    requires j < |candidates|
    ensures base + Spawned(candidates[..j + 1], answering, immediate)
      == base + Spawned(candidates[..j], answering, immediate)
        + [Attempt(candidates[j], candidates[j] !in answering && !immediate, immediate)]
  {
    assert candidates[..j + 1][..j] == candidates[..j];
  }
}
