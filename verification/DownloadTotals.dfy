/**
 The rates of all active downloads together: how large their sum can get over every run, and exactly
 when it stays within the configured total.
 */
module DownloadTotals {
  import opened DownloadControl

  // ---------- The rates of all transfers together ----------

  /** Every step leaves at most n transfers active. */
  ghost predicate RunsWithin(l: Ledger, t: Tuning, steps: seq<Step>, l': Ledger, n: nat)
    decreases |steps|
  {
    if steps == [] then l == l'
    else
      && Enabled(l, steps[0]) && |Next(l, t, steps[0]).order| <= n
      && RunsWithin(Next(l, t, steps[0]), t, steps[1..], l', n)
  }

  /** One live lease of every active transfer, oldest transfer first. */
  ghost predicate Picks(l: Ledger, pick: seq<nat>) {
    |pick| == |l.order| && forall i :: 0 <= i < |pick| ==> pick[i] in l.leases && l.leases[pick[i]].key == l.order[i]
  }

  /** The rates of the picked leases together. */
  ghost function RateSum(leases: map<nat, Lease>, pick: seq<nat>): int
    requires forall i :: 0 <= i < |pick| ==> pick[i] in leases
  {
    if pick == [] then 0 else RateSum(leases, pick[..|pick| - 1]) + leases[pick[|pick| - 1]].transferRate
  }

  /** The rates that n transfers get when they start one after the other. */
  function SumFull(t: Tuning, n: nat): int {
    if n == 0 then 0 else SumFull(t, n - 1) + FullRate(t, n)
  }

  /** With more transfers the rate of a new one does not grow. */
  lemma FullRateFalls(t: Tuning, m: nat, n: nat)
    requires t.total > 0 && 0 < m <= n <= t.total
    ensures FullRate(t, n) <= FullRate(t, m)
  {
    SharesFall(t.total, m, n);
    QuotientPositive(t.total, n);
    if t.min > 0 {
      Scale(t.min, m, n);
    }
  }

  lemma SharesFall(total: int, m: nat, n: nat)
    requires total > 0 && 0 < m <= n
    ensures total / n <= total / m
  {
    var a, b := total / m, total / n;
    Quotient(total, m);
    Quotient(total, n);
    if b > a {
      Scale(m, a + 1, b);
      Scale(b, m, n);
    }
  }

  lemma FullRateIsPositive(t: Tuning, n: nat)
    requires t.bitrate > 0
    ensures FullRate(t, n) > 0
  {
  }

  /** Every live lease was granted among at most n transfers. */
  ghost predicate GrantedWithin(l: Ledger, n: nat) {
    |l.order| <= n && forall id :: id in l.leases ==> l.leases[id].transfers <= n
  }

  lemma {:induction false} RunGrants(l: Ledger, t: Tuning, steps: seq<Step>, l': Ledger, n: nat)
    requires Inv(l, t) && GrantedWithin(l, n) && RunsWithin(l, t, steps, l', n)
    ensures Inv(l', t) && GrantedWithin(l', n)
    decreases |steps|
  {
    if steps != [] {
      var step := steps[0];
      var m := Next(l, t, step);
      assert Runs(m, t, [], m) && [step][1..] == [];
      assert Runs(l, t, [step], m);
      RunKeeps(l, t, [step], m);
      if step.Acquire? {
        AcquireReports(l, t, step.id, step.key, step.now, step.later, m);
      }
      RunGrants(m, t, steps[1..], l', n);
    }
  }

  /** A live lease of the (i + 1)-th oldest transfer holds at most the rate of the (i + 1)-th to start. */
  lemma RankRate(l: Ledger, t: Tuning, n: nat, id: nat, i: nat)
    requires Inv(l, t) && GrantedWithin(l, n) && n <= t.total
    requires id in l.leases && i < |l.order| && l.order[i] == l.leases[id].key
    ensures l.leases[id].transferRate <= FullRate(t, i + 1)
  {
    var lease := l.leases[id];
    assert i + 1 <= lease.transfers <= n;
    FullRateFalls(t, i + 1, lease.transfers);
  }

  lemma {:induction false} PickSum(l: Ledger, t: Tuning, n: nat, pick: seq<nat>, k: nat)
    requires Inv(l, t) && GrantedWithin(l, n) && n <= t.total && Picks(l, pick) && k <= |pick|
    ensures RateSum(l.leases, pick[..k]) <= SumFull(t, k)
    decreases k
  {
    if k > 0 {
      PickSum(l, t, n, pick, k - 1);
      RankRate(l, t, n, pick[k - 1], k - 1);
      assert pick[..k][..k - 1] == pick[..k - 1];
    }
  }

  lemma {:induction false} SumFullGrows(t: Tuning, m: nat, n: nat)
    requires t.bitrate > 0 && m <= n
    ensures SumFull(t, m) <= SumFull(t, n)
    decreases n
  {
    if m < n {
      SumFullGrows(t, m, n - 1);
      FullRateIsPositive(t, n);
    }
  }

  lemma {:induction false} SumFullIsLarge(t: Tuning, n: nat)
    requires t.bitrate > 0
    ensures SumFull(t, n) >= n
  {
    if n > 0 {
      SumFullIsLarge(t, n - 1);
      FullRateIsPositive(t, n);
    }
  }

  /** Over every run with at most n transfers at a time, the rates of the active transfers together stay within those of n starts. */
  lemma SumIsBounded(t: Tuning, steps: seq<Step>, l: Ledger, n: nat, pick: seq<nat>)
    requires t.bitrate > 0 && t.total > 0 && n <= t.total && RunsWithin(EMPTY, t, steps, l, n) && Picks(l, pick)
    ensures RateSum(l.leases, pick) <= SumFull(t, n)
  {
    StartIsBalanced(t);
    RunGrants(EMPTY, t, steps, l, n);
    PickSum(l, t, n, pick, |pick|);
    assert pick[..|pick|] == pick;
    SumFullGrows(t, |pick|, n);
  }

  // A run that attains the bound: n downloads start one after the other.

  function NthKey(i: nat): Key {
    Key("device", "target", seq(i + 1, _ => 'x'))
  }

  function NthStep(i: nat): Step {
    Acquire(i, NthKey(i), 0, 0)
  }

  function Starts(n: nat): (steps: seq<Step>)
    ensures |steps| == n
  {
    if n == 0 then [] else Starts(n - 1) + [NthStep(n - 1)]
  }

  function Upto(n: nat): (pick: seq<nat>)
    ensures |pick| == n && forall i :: 0 <= i < n ==> pick[i] == i
  {
    if n == 0 then [] else Upto(n - 1) + [n - 1]
  }

  ghost predicate NoBreakers(st: State) {
    forall k :: k in st.entries ==> st.entries[k].breaker.Never?
  }

  lemma AcquireOpensNone(st: State, t: Tuning, key: Key, now: int, later: int)
    requires NoBreakers(st)
    ensures NoBreakers(AfterAcquire(st, key, now, later))
    ensures !LeaseOf(Opened(st, key, now), t, key, now, later).breakerOpen
  {
    assert NoBreakers(Opened(st, key, now));
  }

  /** n downloads have started, each with the rate of its turn. */
  ghost predicate Started(l: Ledger, t: Tuning, n: nat) {
    Inv(l, t) && NoBreakers(l.control) && InTurn(l.order, l.leases, t, n)
  }

  ghost predicate InTurn(order: seq<Key>, leases: map<nat, Lease>, t: Tuning, n: nat) {
    && |order| == n
    && (forall id :: id in leases <==> 0 <= id < n)
    && (forall i: nat :: i < n ==> order[i] == NthKey(i) == leases[i].key && leases[i].transferRate == FullRate(t, i + 1))
  }

  lemma InTurnNext(order: seq<Key>, leases: map<nat, Lease>, t: Tuning, n: nat, lease: Lease)
    requires InTurn(order, leases, t, n) && lease.key == NthKey(n) && lease.transferRate == FullRate(t, n + 1)
    ensures InTurn(order + [NthKey(n)], leases[n := lease], t, n + 1)
  {
  }

  lemma NewKey(order: seq<Key>, leases: map<nat, Lease>, t: Tuning, n: nat)
    requires InTurn(order, leases, t, n)
    ensures NthKey(n) !in Active(leases)
  {
    forall id | id in leases
      ensures leases[id].key != NthKey(n)
    {
      KeysDiffer(id, n);
    }
  }

  lemma KeysDiffer(i: nat, j: nat)
    requires i != j
    ensures NthKey(i) != NthKey(j)
  {
    assert |NthKey(i).transfer| == i + 1 && |NthKey(j).transfer| == j + 1;
  }

  lemma StartOneRate(l: Ledger, t: Tuning, n: nat, l': Ledger)
    requires Inv(l, t) && NoBreakers(l.control) && |l.order| == n && n !in l.leases
    requires NthKey(n) !in Active(l.leases) && l' == Next(l, t, NthStep(n))
    ensures Inv(l', t) && NoBreakers(l'.control) && l'.order == l.order + [NthKey(n)]
    ensures l'.leases == l.leases[n := l'.leases[n]] && l'.leases[n].key == NthKey(n)
    ensures l'.leases[n].transferRate == FullRate(t, n + 1)
  {
    AcquireRanks(l, t, n, NthKey(n), 0, 0, l');
    AcquireReports(l, t, n, NthKey(n), 0, 0, l');
    StepBalances(l, t, NthStep(n));
    AcquireOpensNone(l.control, t, NthKey(n), 0, 0);
  }

  lemma StartOne(l: Ledger, t: Tuning, n: nat, l': Ledger)
    requires Started(l, t, n) && l' == Next(l, t, NthStep(n))
    ensures Started(l', t, n + 1)
  {
    NewKey(l.order, l.leases, t, n);
    assert n !in l.leases;
    StartOneRate(l, t, n, l');
    InTurnNext(l.order, l.leases, t, n, l'.leases[n]);
  }

  lemma {:induction false} WithinOn(l: Ledger, t: Tuning, steps: seq<Step>, l': Ledger, step: Step, n: nat)
    requires RunsWithin(l, t, steps, l', n) && Enabled(l', step) && |Next(l', t, step).order| <= n
    ensures RunsWithin(l, t, steps + [step], Next(l', t, step), n)
    decreases |steps|
  {
    if steps == [] {
      assert steps + [step] == [step] && [step][1..] == [];
      assert RunsWithin(Next(l, t, step), t, [], Next(l, t, step), n);
    } else {
      WithinOn(Next(l, t, steps[0]), t, steps[1..], l', step, n);
      assert (steps + [step])[1..] == steps[1..] + [step];
    }
  }

  lemma {:induction false} StartAll(t: Tuning, k: nat, n: nat) returns (l: Ledger)
    requires k <= n
    ensures RunsWithin(EMPTY, t, Starts(k), l, n) && Started(l, t, k)
    decreases k
  {
    if k == 0 {
      l := EMPTY;
      StartIsBalanced(t);
    } else {
      var before := StartAll(t, k - 1, n);
      l := Next(before, t, NthStep(k - 1));
      StartOne(before, t, k - 1, l);
      WithinOn(EMPTY, t, Starts(k - 1), before, NthStep(k - 1), n);
    }
  }

  lemma {:induction false} StartedSum(l: Ledger, t: Tuning, n: nat, k: nat)
    requires Started(l, t, n) && k <= n
    ensures RateSum(l.leases, Upto(k)) == SumFull(t, k)
    decreases k
  {
    if k > 0 {
      StartedSum(l, t, n, k - 1);
      assert Upto(k)[..k - 1] == Upto(k - 1);
    }
  }

  /** The bound is attained. */
  lemma BoundIsAttained(t: Tuning, n: nat) returns (l: Ledger)
    ensures RunsWithin(EMPTY, t, Starts(n), l, n) && Picks(l, Upto(n))
    ensures RateSum(l.leases, Upto(n)) == SumFull(t, n)
  {
    l := StartAll(t, n, n);
    StartedSum(l, t, n, n);
  }

  /** The rates of the active transfers stay within the total in every run with at most n transfers at a time. */
  ghost predicate SumNeverExceeds(t: Tuning, n: nat) {
    forall steps, l, pick :: RunsWithin(EMPTY, t, steps, l, n) && Picks(l, pick) ==> RateSum(l.leases, pick) <= t.total
  }

  /** They do exactly when the rates of n starts fit the total: a sum that can be computed beforehand. */
  lemma SumFitsExactly(t: Tuning, n: nat)
    requires t.bitrate > 0 && t.total > 0
    ensures SumNeverExceeds(t, n) <==> SumFull(t, n) <= t.total
  {
    SumFullIsLarge(t, n);
    if SumFull(t, n) <= t.total {
      forall steps, l, pick | RunsWithin(EMPTY, t, steps, l, n) && Picks(l, pick)
        ensures RateSum(l.leases, pick) <= t.total
      {
        SumIsBounded(t, steps, l, n, pick);
      }
    } else {
      var l := BoundIsAttained(t, n);
    }
  }

  /** One download may use the whole total, so two may exceed it. */
  lemma TwoMayExceed(t: Tuning)
    requires 2 <= t.total <= t.bitrate
    ensures SumFull(t, 1) == t.total < SumFull(t, 2) && SumNeverExceeds(t, 1) && !SumNeverExceeds(t, 2)
  {
    FullRateIsPositive(t, 2);
    assert SumFull(t, 1) == SumFull(t, 0) + FullRate(t, 1) && SumFull(t, 2) == SumFull(t, 1) + FullRate(t, 2);
    SumFitsExactly(t, 1);
    SumFitsExactly(t, 2);
  }
}
