/**
 The receiver's sequence reorder buffer. Packets arrive in any order and any number of times,
 carrying 16-bit sequence numbers that wrap; the buffer releases them in sending order.
 */
module Reorder {
  import opened Bytes
  import opened Seqs

  datatype Ordered = Ordered(seqNo: u16, payload: seq<byte>)

  datatype Verdict = InOrder | Buffered | GapTolerated | Duplicate | Late | GapOverflow

  datatype State = State(started: bool, expected: u16, reorderWindow: int, lossTolerance: int,
                         pending: map<u16, seq<byte>>)

  // ---------- Specification ----------

  /** Sequence number arithmetic wraps at 2^16. */
  function Plus(s: u16, k: u16): u16 {
    if s + k < 0x1_0000 then s + k else s + k - 0x1_0000
  }

  function Distance(s: u16, from: u16): u16 {
    if from <= s then s - from else s - from + 0x1_0000
  }

  const DEFAULT_WINDOW := 8
  const DEFAULT_TOLERANCE := 2

  /** A buffer for the configured numbers; a window not positive and a tolerance below zero stand for the defaults. */
  function Fresh(reorderWindow: int, lossTolerance: int): State {
    State(false, 0, if reorderWindow <= 0 then DEFAULT_WINDOW else reorderWindow,
          if lossTolerance < 0 then DEFAULT_TOLERANCE else lossTolerance, map[])
  }

  function TotalWindow(st: State): (w: int)
    ensures w > 0
  {
    if st.reorderWindow + st.lossTolerance > 0 then st.reorderWindow + st.lossTolerance
    else if st.reorderWindow > 0 then st.reorderWindow
    else DEFAULT_WINDOW
  }

  datatype Flushed = Flushed(ready: seq<Ordered>, expected: u16, pending: map<u16, seq<byte>>)

  /** Release the unbroken run of pending packets that starts at `expected`. */
  function Flush(expected: u16, pending: map<u16, seq<byte>>): Flushed
    decreases |pending|
  {
    if expected !in pending then Flushed([], expected, pending)
    else
      var more := Flush(Plus(expected, 1), pending - {expected});
      more.(ready := [Ordered(expected, pending[expected])] + more.ready)
  }

  datatype Pushed = Pushed(state: State, ready: seq<Ordered>, verdict: Verdict)

  function AfterPush(st0: State, s: u16, payload: seq<byte>): Pushed {
    var st := if st0.started then st0 else st0.(started := true, expected := s);
    if s == st.expected then
      var f := Flush(Plus(s, 1), st.pending);
      Pushed(st.(expected := f.expected, pending := f.pending), [Ordered(s, payload)] + f.ready, InOrder)
    else
      var d := Distance(s, st.expected);
      if d >= 0x8000 then Pushed(st, [], Late)
      else if d > TotalWindow(st) then Pushed(st, [], GapOverflow)
      else if s in st.pending then Pushed(st, [], Duplicate)
      else Pushed(st.(pending := st.pending[s := payload]), [], if d > st.reorderWindow then GapTolerated else Buffered)
  }

  // ---------- The sender's numbering ----------

  /** The sender counts up by one, modulo 2^16. */
  ghost predicate Consecutive(sent: seq<Ordered>) {
    forall n :: 0 < n < |sent| ==> sent[n].seqNo == Plus(sent[n - 1].seqNo, 1)
  }

  lemma {:induction false} Ahead(sent: seq<Ordered>, m: nat, n: nat)
    requires Consecutive(sent) && m <= n < |sent| && n < m + 0x1_0000
    ensures sent[n].seqNo == Plus(sent[m].seqNo, n - m)
    decreases n - m
  {
    if m < n {
      Ahead(sent, m, n - 1);
    }
  }

  lemma Distinct(sent: seq<Ordered>, m: nat, n: nat)
    requires Consecutive(sent) && m < n < |sent| && n < m + 0x1_0000
    ensures sent[m].seqNo != sent[n].seqNo
  {
    Ahead(sent, m, n);
  }

  /** The number that is due when the packets before index `m` are gone. */
  function Due(sent: seq<Ordered>, m: nat): u16
    requires 0 < m <= |sent|
  {
    Plus(sent[m - 1].seqNo, 1)
  }

  /** `pending` holds exactly the packets with indices in `held`, all within half the number space of `next`. */
  ghost predicate Holds(pending: map<u16, seq<byte>>, sent: seq<Ordered>, held: set<nat>, next: nat) {
    && (forall n :: n in held ==> next <= n < next + 0x8000 && n < |sent|)
    && (forall n :: n in held ==> sent[n].seqNo in pending && pending[sent[n].seqNo] == sent[n].payload)
    && (forall s :: s in pending ==> exists n :: n in held && sent[n].seqNo == s)
  }

  lemma PendingMeansHeld(pending: map<u16, seq<byte>>, sent: seq<Ordered>, held: set<nat>, next: nat, n: nat)
    requires Consecutive(sent) && Holds(pending, sent, held, next) && next <= n <= next + 0x8000 && n < |sent|
    ensures sent[n].seqNo in pending <==> n in held
  {
    if sent[n].seqNo in pending {
      var k :| k in held && sent[k].seqNo == sent[n].seqNo;
      if k < n {
        Distinct(sent, k, n);
      } else if n < k {
        Distinct(sent, n, k);
      }
    }
  }

  /** The number behind the last packet is not pending. */
  lemma NothingBeyond(pending: map<u16, seq<byte>>, sent: seq<Ordered>, held: set<nat>)
    requires Consecutive(sent) && |sent| > 0 && Holds(pending, sent, held, |sent|)
    ensures Due(sent, |sent|) !in pending
  {
  }

  lemma HoldsWithout(pending: map<u16, seq<byte>>, sent: seq<Ordered>, held: set<nat>, next: nat, less: set<nat>)
    requires Consecutive(sent) && Holds(pending, sent, held, next) && next in held && less == held - {next}
    ensures Holds(pending - {sent[next].seqNo}, sent, less, next + 1)
  {
    forall n | n in less
      ensures sent[n].seqNo != sent[next].seqNo
    {
      Distinct(sent, next, n);
    }
  }

  lemma HoldsWith(pending: map<u16, seq<byte>>, sent: seq<Ordered>, held: set<nat>, next: nat, n: nat, more: set<nat>)
    requires Consecutive(sent) && Holds(pending, sent, held, next) && n !in held && more == held + {n}
    requires next <= n < next + 0x8000 && n < |sent|
    ensures Holds(pending[sent[n].seqNo := sent[n].payload], sent, more, next)
  {
    PendingMeansHeld(pending, sent, held, next, n);
    var grown := pending[sent[n].seqNo := sent[n].payload];
    forall s | s in grown
      ensures exists k :: k in more && sent[k].seqNo == s
    {
      if s == sent[n].seqNo {
        assert n in more;
      } else {
        var k :| k in held && sent[k].seqNo == s;
        assert k in more;
      }
    }
  }

  // ---------- Runs of indices ----------

  ghost function From(held: set<nat>, n: nat): set<nat> {
    set k | k in held && n <= k
  }

  ghost function Above(held: set<nat>, n: nat): set<nat> {
    set k | k in held && n < k
  }

  /** The end of the unbroken run of indices in `held` that starts at `n`. */
  ghost function RunEnd(held: set<nat>, n: nat): (e: nat)
    ensures n <= e && e !in held
    ensures forall k :: n <= k < e ==> k in held
    decreases |From(held, n)|
  {
    if n !in held then n
    else
      assert From(held, n) == From(held, n + 1) + {n};
      RunEnd(held, n + 1)
  }

  lemma RunEndIs(held: set<nat>, n: nat, e: nat)
    requires n <= e && e !in held && forall k :: n <= k < e ==> k in held
    ensures RunEnd(held, n) == e
  {
    var r := RunEnd(held, n);
    assert r < e ==> r in held;
  }

  lemma RunEndWithout(held: set<nat>, n: nat, less: set<nat>)
    requires n in held && less == held - {n}
    ensures RunEnd(held, n) == RunEnd(less, n + 1)
    ensures Above(less, RunEnd(held, n)) == Above(held, RunEnd(held, n))
  {
    RunEndIs(less, n + 1, RunEnd(held, n));
  }

  lemma RunEndFilled(arrived: set<nat>, m: nat, e: nat)
    requires m == RunEnd(arrived, 0) && e == RunEnd(Above(arrived, m), m + 1)
    ensures RunEnd(arrived + {m}, 0) == e
    ensures Above(arrived + {m}, e) == Above(Above(arrived, m), e)
  {
    var all := arrived + {m};
    assert e !in Above(arrived, m);
    forall k | 0 <= k < e
      ensures k in all
    {
      if m < k {
        assert k in Above(arrived, m);
      }
    }
    RunEndIs(all, 0, e);
  }

  // ---------- Flushing ----------

  lemma RunStaysInside(pending: map<u16, seq<byte>>, sent: seq<Ordered>, held: set<nat>, next: nat)
    requires Holds(pending, sent, held, next) && next <= |sent|
    ensures RunEnd(held, next) <= |sent|
  {
    assert |sent| < RunEnd(held, next) ==> |sent| in held;
  }

  /** Flushing at index `next` releases exactly the run of held packets there and keeps the rest. */
  lemma {:induction false} FlushIsExact(pending: map<u16, seq<byte>>, sent: seq<Ordered>, held: set<nat>, next: nat)
    requires Consecutive(sent) && Holds(pending, sent, held, next) && 0 < next <= |sent|
    ensures var f, e := Flush(Due(sent, next), pending), RunEnd(held, next);
            && next <= e <= |sent|
            && f.ready == sent[next..e]
            && f.expected == Due(sent, e)
            && Holds(f.pending, sent, Above(held, e), e)
    decreases held
  {
    RunStaysInside(pending, sent, held, next);
    if next in held {
      var less := held - {next};
      assert Due(sent, next) == sent[next].seqNo;
      HoldsWithout(pending, sent, held, next, less);
      FlushIsExact(pending - {sent[next].seqNo}, sent, less, next + 1);
      RunEndWithout(held, next, less);
      SliceHead(sent, next, RunEnd(held, next));
    } else {
      assert Above(held, next) == held;
      if next < |sent| {
        PendingMeansHeld(pending, sent, held, next, next);
      } else {
        NothingBeyond(pending, sent, held);
      }
    }
  }

  // ---------- Exactness over every run ----------

  /** The least index that has not arrived. */
  ghost function FirstMissing(arrived: set<nat>): nat {
    RunEnd(arrived, 0)
  }

  /** Every buffer has a positive window and a tolerance not negative. */
  predicate Tuned(st: State) {
    st.reorderWindow > 0 && st.lossTolerance >= 0
  }

  /** The buffer after the packets in `arrived` came in. */
  ghost predicate Tracks(st: State, sent: seq<Ordered>, arrived: set<nat>) {
    var m := FirstMissing(arrived);
    && st.started && Tuned(st)
    && 0 < m <= |sent|
    && (forall n :: n in arrived ==> n < |sent|)
    && st.expected == Due(sent, m)
    && Holds(st.pending, sent, Above(arrived, m), m)
  }

  /** An arrival the 16-bit distance can place: within half the number space of the next index due. */
  ghost predicate Placeable(arrived: set<nat>, n: nat) {
    FirstMissing(arrived) - 0x8000 <= n < FirstMissing(arrived) + 0x8000
  }

  ghost function UpTo(k: nat): (s: set<nat>)
    ensures forall n: nat :: n in s <==> n <= k
  {
    if k == 0 then {0} else UpTo(k - 1) + {k}
  }

  lemma UpToIsUnbroken(k: nat)
    ensures FirstMissing(UpTo(k)) == k + 1 && Above(UpTo(k), k + 1) == {}
  {
    var up := UpTo(k);
    RunEndIs(up, 0, k + 1);
    assert Above(up, k + 1) == {};
  }

  /** Whatever packet comes first defines the start: those before it count as already gone. */
  lemma FirstPush(st: State, sent: seq<Ordered>, k: nat, arrived: set<nat>)
    requires !st.started && st.pending == map[] && Tuned(st) && k < |sent|
    requires FirstMissing(arrived) == k + 1 && Above(arrived, k + 1) == {} && forall n :: n in arrived ==> n < |sent|
    ensures var p := AfterPush(st, sent[k].seqNo, sent[k].payload);
            && p.verdict.InOrder?
            && Tracks(p.state, sent, arrived)
            && p.ready == [sent[k]]
  {
    assert Holds(map[], sent, {}, k + 1);
  }

  /** How packet n must be judged, with window w and tolerance t, when the packets in `arrived` came before it. */
  ghost function VerdictOn(w: int, t: int, arrived: set<nat>, n: nat): Verdict {
    var m := FirstMissing(arrived);
    if n == m then InOrder
    else if n < m then Late
    else if n > m + w + t then GapOverflow
    else if n in arrived then Duplicate
    else if n > m + w then GapTolerated
    else Buffered
  }

  /** What one arrival must do: be judged rightly and release exactly the newly unbroken run, or fail beyond the window. */
  ghost predicate ExactPush(p: Pushed, st: State, sent: seq<Ordered>, arrived: set<nat>, n: nat) {
    var m, m' := FirstMissing(arrived), FirstMissing(arrived + {n});
    && p.verdict == VerdictOn(st.reorderWindow, st.lossTolerance, arrived, n)
    && if p.verdict.GapOverflow? then p.state == st && p.ready == []
    else
      && Tracks(p.state, sent, arrived + {n})
      && m <= m' <= |sent|
      && p.ready == sent[m..m']
  }

  lemma PushIsExact(st: State, sent: seq<Ordered>, arrived: set<nat>, n: nat)
    requires Consecutive(sent) && Tracks(st, sent, arrived) && n < |sent| && Placeable(arrived, n)
    ensures ExactPush(AfterPush(st, sent[n].seqNo, sent[n].payload), st, sent, arrived, n)
  {
    var m := FirstMissing(arrived);
    if n == m {
      PushDue(st, sent, arrived);
    } else if n < m {
      PushBehind(st, sent, arrived, n);
    } else {
      PushAhead(st, sent, arrived, n);
    }
  }

  lemma PushDue(st: State, sent: seq<Ordered>, arrived: set<nat>)
    requires Consecutive(sent) && Tracks(st, sent, arrived) && FirstMissing(arrived) < |sent|
    ensures var m := FirstMissing(arrived);
            ExactPush(AfterPush(st, sent[m].seqNo, sent[m].payload), st, sent, arrived, m)
  {
    var m := FirstMissing(arrived);
    var held := Above(arrived, m);
    assert Holds(st.pending, sent, held, m + 1);
    FlushIsExact(st.pending, sent, held, m + 1);
    var e := RunEnd(held, m + 1);
    RunEndFilled(arrived, m, e);
    SliceHead(sent, m, e);
  }

  lemma PushBehind(st: State, sent: seq<Ordered>, arrived: set<nat>, n: nat)
    requires Consecutive(sent) && Tracks(st, sent, arrived) && n < FirstMissing(arrived) <= n + 0x8000
    ensures AfterPush(st, sent[n].seqNo, sent[n].payload) == Pushed(st, [], Late)
    ensures arrived + {n} == arrived
  {
    Ahead(sent, n, FirstMissing(arrived) - 1);
    assert n in arrived;
  }

  lemma PushAhead(st: State, sent: seq<Ordered>, arrived: set<nat>, n: nat)
    requires Consecutive(sent) && Tracks(st, sent, arrived) && n < |sent|
    requires FirstMissing(arrived) < n < FirstMissing(arrived) + 0x8000
    ensures ExactPush(AfterPush(st, sent[n].seqNo, sent[n].payload), st, sent, arrived, n)
  {
    var m := FirstMissing(arrived);
    var all := arrived + {n};
    Ahead(sent, m - 1, n);
    assert Distance(sent[n].seqNo, st.expected) == n - m;
    RunEndIs(all, 0, m);
    PendingMeansHeld(st.pending, sent, Above(arrived, m), m, n);
    if n in arrived {
      assert all == arrived;
    } else if n <= m + st.reorderWindow + st.lossTolerance {
      HoldsWith(st.pending, sent, Above(arrived, m), m, n, Above(all, m));
    }
  }

  datatype Run = Run(state: State, released: seq<Ordered>, overflowed: bool)

  /** The receiver pushes arrivals one by one and gives up at the first window overflow. */
  function Deliver(st: State, sent: seq<Ordered>, arrivals: seq<nat>): Run
    requires forall i :: 0 <= i < |arrivals| ==> arrivals[i] < |sent|
    decreases |arrivals|
  {
    if arrivals == [] then Run(st, [], false)
    else
      var p := AfterPush(st, sent[arrivals[0]].seqNo, sent[arrivals[0]].payload);
      if p.verdict.GapOverflow? then Run(p.state, [], true)
      else
        var more := Deliver(p.state, sent, arrivals[1..]);
        more.(released := p.ready + more.released)
  }

  ghost function Arrived(arrivals: seq<nat>): set<nat> {
    set n | n in arrivals
  }

  /** Every arrival can be placed given those before it. */
  ghost predicate AllPlaceable(arrived: set<nat>, arrivals: seq<nat>)
    decreases |arrivals|
  {
    arrivals == [] ||
    (Placeable(arrived, arrivals[0]) && AllPlaceable(arrived + {arrivals[0]}, arrivals[1..]))
  }

  /** No arrival lies beyond the window in front of the first missing packet. */
  ghost predicate AllInWindow(arrived: set<nat>, arrivals: seq<nat>, window: int)
    decreases |arrivals|
  {
    arrivals == [] ||
    (arrivals[0] <= FirstMissing(arrived) + window && AllInWindow(arrived + {arrivals[0]}, arrivals[1..], window))
  }

  lemma PushKeepsTuning(st: State, s: u16, payload: seq<byte>)
    ensures var st' := AfterPush(st, s, payload).state; st'.reorderWindow == st.reorderWindow && st'.lossTolerance == st.lossTolerance
  {
  }

  lemma ArrivedCons(arrived: set<nat>, arrivals: seq<nat>)
    requires arrivals != []
    ensures arrived + {arrivals[0]} + Arrived(arrivals[1..]) == arrived + Arrived(arrivals)
  {
    assert arrivals == [arrivals[0]] + arrivals[1..];
  }

  lemma {:induction false} DeliverFrom(st: State, sent: seq<Ordered>, arrived: set<nat>, arrivals: seq<nat>)
    requires forall i :: 0 <= i < |arrivals| ==> arrivals[i] < |sent|
    requires Consecutive(sent) && Tracks(st, sent, arrived) && AllPlaceable(arrived, arrivals)
    ensures var r, all := Deliver(st, sent, arrivals), arrived + Arrived(arrivals);
            && (r.overflowed <==> !AllInWindow(arrived, arrivals, st.reorderWindow + st.lossTolerance))
            && (!r.overflowed ==>
                  && FirstMissing(arrived) <= FirstMissing(all) <= |sent|
                  && r.released == sent[FirstMissing(arrived)..FirstMissing(all)])
    decreases |arrivals|
  {
    if arrivals == [] {
      assert arrived + Arrived(arrivals) == arrived;
    } else {
      var n := arrivals[0];
      PushIsExact(st, sent, arrived, n);
      var p := AfterPush(st, sent[n].seqNo, sent[n].payload);
      if !p.verdict.GapOverflow? {
        var all := arrived + Arrived(arrivals);
        PushKeepsTuning(st, sent[n].seqNo, sent[n].payload);
        DeliverFrom(p.state, sent, arrived + {n}, arrivals[1..]);
        ArrivedCons(arrived, arrivals);
        assert arrived + {n} + Arrived(arrivals[1..]) == all;
        if !Deliver(p.state, sent, arrivals[1..]).overflowed {
          SliceJoin(sent, FirstMissing(arrived), FirstMissing(arrived + {n}), FirstMissing(all));
        }
      }
    }
  }

  /**
   For every order and multiplicity of placeable arrivals: the buffer overflows exactly when some
   arrival lies beyond the configured window and tolerance together, 8 and 2 by default; otherwise it
   has released, in sending order and without repetition, exactly the packets from the first arrival
   up to the first one still missing.
   */
  lemma ReorderIsExact(window: int, tolerance: int, sent: seq<Ordered>, arrivals: seq<nat>)
    requires Consecutive(sent) && |arrivals| > 0
    requires forall i :: 0 <= i < |arrivals| ==> arrivals[i] < |sent|
    requires AllPlaceable(UpTo(arrivals[0]), arrivals[1..])
    ensures var r, k := Deliver(Fresh(window, tolerance), sent, arrivals), arrivals[0];
            var w, t := if window > 0 then window else 8, if tolerance >= 0 then tolerance else 2;
            var m := FirstMissing(UpTo(k) + Arrived(arrivals));
            && (r.overflowed <==> !AllInWindow(UpTo(k), arrivals[1..], w + t))
            && (!r.overflowed ==> k < m <= |sent| && r.released == sent[k..m])
  {
    var st, k := Fresh(window, tolerance), arrivals[0];
    UpToIsUnbroken(k);
    FirstPush(st, sent, k, UpTo(k));
    PushKeepsTuning(st, sent[k].seqNo, sent[k].payload);
    var p := AfterPush(st, sent[k].seqNo, sent[k].payload);
    DeliverFrom(p.state, sent, UpTo(k), arrivals[1..]);
    ArrivedCons(UpTo(k), arrivals);
    assert UpTo(k) + {k} == UpTo(k);
    var r, m := Deliver(st, sent, arrivals), FirstMissing(UpTo(k) + Arrived(arrivals));
    if !r.overflowed {
      SliceHead(sent, k, m);
    }
  }

  // ---------- The buffer itself ----------

  class ReorderBuffer {
    var started: bool
    var expected: u16
    var reorderWindow: int
    var lossTolerance: int
    var pending: map<u16, seq<byte>>

    function View(): State
      reads this
    {
      State(started, expected, reorderWindow, lossTolerance, pending)
    }

    constructor (window: int, tolerance: int)
      ensures View() == Fresh(window, tolerance) && !started && pending == map[] && expected == 0
      ensures reorderWindow == (if window > 0 then window else 8) && lossTolerance == (if tolerance >= 0 then tolerance else 2)
    {
      started, expected, pending := false, 0, map[];
      reorderWindow := if window <= 0 then DEFAULT_WINDOW else window;
      lossTolerance := if tolerance < 0 then DEFAULT_TOLERANCE else tolerance;
    }

    method Push(s: u16, payload: seq<byte>) returns (ready: seq<Ordered>, verdict: Verdict)
      modifies this
      ensures Pushed(View(), ready, verdict) == AfterPush(old(View()), s, payload)
    {
      if !started {
        started, expected := true, s;
      }
      if s == expected {
        expected := Plus(s, 1);
        var more := FlushReady();
        return [Ordered(s, payload)] + more, InOrder;
      }
      var distance := Distance(s, expected);
      if distance >= 0x8000 {
        return [], Late;
      }
      if distance > TotalWindow(View()) {
        return [], GapOverflow;
      }
      if s in pending {
        return [], Duplicate;
      }
      pending := pending[s := payload];
      verdict := if distance > reorderWindow then GapTolerated else Buffered;
      return [], verdict;
    }

    method FlushReady() returns (ready: seq<Ordered>)
      modifies this
      ensures Flushed(ready, expected, pending) == Flush(old(expected), old(pending))
      ensures unchanged(`started) && unchanged(`reorderWindow) && unchanged(`lossTolerance)
    {
      ready := [];
      while expected in pending
        invariant unchanged(`started) && unchanged(`reorderWindow) && unchanged(`lossTolerance)
        invariant var f := Flush(expected, pending);
                  Flush(old(expected), old(pending)) == f.(ready := ready + f.ready)
        decreases |pending|
      {
        ghost var later := Flush(Plus(expected, 1), pending - {expected}).ready;
        assert ready + ([Ordered(expected, pending[expected])] + later) == (ready + [Ordered(expected, pending[expected])]) + later;
        ready := ready + [Ordered(expected, pending[expected])];
        pending := pending - {expected};
        expected := Plus(expected, 1);
      }
    }
  }
}
