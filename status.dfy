/**
 * The two observers the detector calls, and what each of them has been
 * told. A log records every call, in order, together with the observer
 * that held the slot at the time.
 */
module Status {
  import opened Devices

  /** The observer held in a callback slot: the initial no-op, or one a caller set. */
  datatype Callback = NoOp | Handler(id: nat)

  /** One call of an observer with one value. */
  datatype Delivery<T> = Delivery(to: Callback, value: T)

  /** `told` says whether the observer was ever called, and `last` is the value its latest call carried. */
  ghost predicate Tracks(told: bool, last: bool, log: seq<Delivery<bool>>)
  {
    told == (log != []) && (log != [] ==> log[|log| - 1].value == last)
  }

  /**
   * The status log after one unforced status report of `v`: the report is
   * made exactly when nothing has been reported yet or the last reported
   * value differs, so unforced reports never repeat the previous value.
   */
  function Reported(log: seq<Delivery<bool>>, to: Callback, v: bool): (r: seq<Delivery<bool>>)
    ensures r != [] && r[|r| - 1].value == v
    ensures log != [] && log[|log| - 1].value == v ==> r == log
    ensures log == [] || log[|log| - 1].value != v ==> r == log + [Delivery(to, v)]
  {
    if log != [] && log[|log| - 1].value == v then log else log + [Delivery(to, v)]
  }

  /** From an idle observer, a report of `true` and then one of `false` are both made. */
  lemma RiseAndFall(log: seq<Delivery<bool>>, to: Callback)
    requires log == [] || !log[|log| - 1].value
    ensures Reported(Reported(log, to, true), to, false) == log + [Delivery(to, true), Delivery(to, false)]
  {
  }

  /** `n` rises and falls: the status calls made by `n` handshakes that each complete at once. */
  function Pulses(to: Callback, n: nat): (r: seq<Delivery<bool>>)
    ensures |r| == 2 * n
  {
    if n == 0 then [] else Pulses(to, n - 1) + [Delivery(to, true), Delivery(to, false)]
  }

  /** The device-callback calls for the candidates that answer a ping while scanning. */
  function Confirmations(candidates: seq<Device>, answering: set<Device>, to: Callback): (r: seq<Delivery<Device>>)
    ensures |r| <= |candidates|
  {
    if candidates == [] then []
    else
      var d := candidates[|candidates| - 1];
      Confirmations(candidates[..|candidates| - 1], answering, to)
        + (if d in answering then [Delivery(to, d)] else [])
  }

  /** When every candidate answers, each is forwarded once, in order, to the held observer. */
  lemma {:induction false} ConfirmationsAll(candidates: seq<Device>, answering: set<Device>, to: Callback)
    requires forall k :: 0 <= k < |candidates| ==> candidates[k] in answering
    ensures |Confirmations(candidates, answering, to)| == |candidates|
    ensures forall k :: 0 <= k < |candidates| ==>
      Confirmations(candidates, answering, to)[k] == Delivery(to, candidates[k])
  {
    if candidates != [] {
      ConfirmationsAll(candidates[..|candidates| - 1], answering, to);
    }
  }

  /** When no candidate answers, nothing is forwarded. */
  lemma {:induction false} ConfirmationsNone(candidates: seq<Device>, answering: set<Device>, to: Callback)
    requires forall k :: 0 <= k < |candidates| ==> candidates[k] !in answering
    ensures Confirmations(candidates, answering, to) == []
  {
    if candidates != [] {
      ConfirmationsNone(candidates[..|candidates| - 1], answering, to);
    }
  }

  /** The device calls of two lists delivered back to back are those of each, in turn. */
  lemma {:induction false} ConfirmationsAppend(a: seq<Device>, b: seq<Device>, answering: set<Device>, to: Callback)
    ensures Confirmations(a + b, answering, to) == Confirmations(a, answering, to) + Confirmations(b, answering, to)
  {
    if b == [] {
      assert a + b == a;
    } else {
      var init, last := b[..|b| - 1], b[|b| - 1];
      ConfirmationsAppend(a, init, answering, to);
      assert (a + b)[..|a + b| - 1] == a + init;
      assert (a + b)[|a + b| - 1] == last;
    }
  }

  /**
   * In general, a device call is made exactly for the candidates that
   * answer, each to the observer held at the time.
   */
  lemma {:induction false} ConfirmationsExact(candidates: seq<Device>, answering: set<Device>, to: Callback)
    ensures forall x :: x in Confirmations(candidates, answering, to) <==>
      x.to == to && x.value in candidates && x.value in answering
  {
    if candidates != [] {
      var init, last := candidates[..|candidates| - 1], candidates[|candidates| - 1];
      ConfirmationsExact(init, answering, to);
      assert candidates == init + [last];
    }
  }

  /** The status values of `n` immediate handshakes alternate, starting with `true`. */
  lemma {:induction false} PulsesAlternate(to: Callback, n: nat)
    ensures forall k :: 0 <= k < 2 * n ==> Pulses(to, n)[k] == Delivery(to, k % 2 == 0)
  {
    if n > 0 {
      PulsesAlternate(to, n - 1);
    }
  }

  /** One more candidate adds its own confirmation, if it answers, after those of the candidates before it. */
  lemma ConfirmationsStep(base: seq<Delivery<Device>>, candidates: seq<Device>, j: nat, answering: set<Device>, to: Callback)
    requires j < |candidates|
    ensures base + Confirmations(candidates[..j + 1], answering, to)
      == base + Confirmations(candidates[..j], answering, to)
        + (if candidates[j] in answering then [Delivery(to, candidates[j])] else [])
  {
    assert candidates[..j + 1][..j] == candidates[..j];
  }

  /** One more immediate handshake adds one more rise and fall. */
  lemma PulsesStep(base: seq<Delivery<bool>>, to: Callback, n: nat)
    ensures base + Pulses(to, n + 1) == base + Pulses(to, n) + [Delivery(to, true), Delivery(to, false)]
  {
  }
}
