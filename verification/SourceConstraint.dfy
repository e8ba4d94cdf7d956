/**
 The source constraint of a target over whole runs: slow readings of a download with several segments
 hold further segments back for a while.
 */
module SourceConstraint {
  import opened DownloadControl
  import opened TargetHistory

  // ---------- What opens it ----------

  /** A reading holds the target back exactly when it is slow and a slow one is remembered. */
  lemma ReadingOpens(st: State, t: Tuning, step: Step, target: string)
    requires ReadingOf(t, step, target)
    ensures var e := EntryAt(Pruned(st, step.now), TargetKey(target));
            var e' := EntryAt(AfterStep(st, t, step), TargetKey(target));
            && e'.hits == (if SlowOn(t, step, target) then e.hits + 1 else if SingleOn(t, step, target) then 0 else e.hits)
            && e'.constrained == (if SlowOn(t, step, target) && e.hits > 0 then At(step.now + 45_000)
                                  else if SingleOn(t, step, target) && step.body >= 4_194_304 then Never
                                  else e.constrained)
  {
  }

  /** The slow readings since the last one with a single segment. */
  function NextSlow(t: Tuning, step: Step, target: string, n: nat): nat {
    if SlowOn(t, step, target) then n + 1 else if SingleOn(t, step, target) then 0 else n
  }

  function SlowAfter(t: Tuning, steps: seq<Step>, target: string, n: nat): nat
    decreases |steps|
  {
    if steps == [] then n else SlowAfter(t, steps[1..], target, NextSlow(t, steps[0], target, n))
  }

  lemma StepHits(l: Ledger, t: Tuning, step: Step, s: Standing, target: string, n: nat)
    requires Enabled(l, step) && s.hits <= n
    ensures NextStanding(l, t, step, s, target).hits <= NextSlow(t, step, target, n)
  {
  }

  /** Of these the controller remembers no more than there were. */
  lemma {:induction false} HistoryHits(l: Ledger, t: Tuning, steps: seq<Step>, s: Standing, target: string, l': Ledger, n: nat)
    requires Runs(l, t, steps, l') && s.hits <= n
    ensures StandingAfter(l, t, steps, s, target, l').hits <= SlowAfter(t, steps, target, n)
    decreases |steps|
  {
    if steps != [] {
      StepHits(l, t, steps[0], s, target, n);
      HistoryHits(Next(l, t, steps[0]), t, steps[1..], NextStanding(l, t, steps[0], s, target), target, l', NextSlow(t, steps[0], target, n));
    }
  }

  /** Over every run, a reading holds a target back only if it is slow and an earlier one was, with no single-segment reading between. */
  lemma OnlySecondOpens(t: Tuning, steps: seq<Step>, l: Ledger, step: Step, target: string)
    requires Runs(EMPTY, t, steps, l) && ReadingOf(t, step, target)
    requires EntryAt(l.control, TargetKey(target)).constrained.Never?
    ensures EntryAt(AfterStep(l.control, t, step), TargetKey(target)).constrained.At? ==>
              SlowOn(t, step, target) && SlowAfter(t, steps, target, 0) > 0
  {
    StandingIsExact(t, steps, target, l);
    HistoryHits(EMPTY, t, steps, GOOD, target, l, 0);
    ReadingOpens(l.control, t, step, target);
    StandsPruned(l.control, target, step.now);
  }

  /**
   Two slow readings in a row hold a target back, but not if a segment of a new download from the
   target starts between them: looking at the target's breaker drops the first one.
   */
  lemma SegmentForgetsReading(t: Tuning, k: Key, slow: Step)
    requires SlowOn(t, slow, k.target) && slow.now == 0 && k != TargetKey(k.target)
    ensures var one := Next(EMPTY, t, slow);
            var two := Next(one, t, Acquire(0, k, 0, 0));
            && StandingOf(Next(one, t, slow).control, k.target).constrained == At(45_000)
            && StandingOf(Next(two, t, slow).control, k.target).constrained == Never
  {
    var target := k.target;
    var one := Next(EMPTY, t, slow);
    var two := Next(one, t, Acquire(0, k, 0, 0));
    ReadingOpens(EMPTY.control, t, slow, target);
    ReadingOpens(one.control, t, slow, target);
    StandsAcquire(one.control, target, k, 0, 0);
    ReadingOpens(two.control, t, slow, target);
  }

  // ---------- How long it holds ----------

  /** The target is held back until `until` or longer. */
  predicate HeldBack(st: State, target: string, until: int) {
    && TargetKey(target) in st.entries
    && st.entries[TargetKey(target)].constrained.At? && st.entries[TargetKey(target)].constrained.time >= until
  }

  /** The second clock reading of a step. */
  function LaterOf(step: Step): int {
    if step.SourceRead? || step.ConstraintQuery? then step.now else step.later
  }

  /** A step within the given time that neither reads a fast single segment nor ends a transfer counted under the target's key. */
  predicate Calm(l: Ledger, t: Tuning, step: Step, target: string, from: int, until: int) {
    && from <= step.now < until && LaterOf(step) < until
    && !(SingleOn(t, step, target) && step.body >= 4_194_304)
    && (step.Release? && step.id in l.leases ==> l.leases[step.id].key != TargetKey(target))
  }

  lemma CalmUpkeep(st: State, target: string, now: int, later: int, until: int, other: string, k: Key)
    requires HeldBack(st, target, until) && now < until && later < until
    ensures HeldBack(Pruned(st, now), target, until)
    ensures HeldBack(AfterTargetBreaker(st, other, now, later), target, until)
    ensures HeldBack(AfterConstrained(st, other, now), target, until)
    ensures HeldBack(DeleteIfIdle(st, k, later), target, until)
  {
  }

  lemma CalmAcquire(st: State, target: string, k: Key, now: int, later: int, until: int)
    requires HeldBack(st, target, until) && now < until && later < until
    ensures HeldBack(AfterAcquire(st, k, now, later), target, until)
  {
    CalmUpkeep(st, target, now, later, until, k.target, k);
    var s := Opened(st, k, now);
    assert HeldBack(s, target, until);
    CalmUpkeep(s, target, now, later, until, k.target, k);
    CalmUpkeep(AfterTargetBreaker(s, k.target, now, later), target, now, later, until, k.target, k);
  }

  lemma CalmRelease(st: State, t: Tuning, target: string, k: Key, outcome: Outcome, now: int, later: int, until: int)
    requires HeldBack(st, target, until) && now < until && later < until && k != TargetKey(target)
    ensures HeldBack(AfterRelease(st, t, k, outcome, now, later), target, until)
  {
    CalmUpkeep(st, target, now, later, until, k.target, k);
    var s := Discounted(Pruned(st, now), k);
    assert HeldBack(s, target, until);
    if k in s.entries {
      CalmOutcome(s, t, target, k, outcome, now, later, until);
    }
  }

  lemma CalmOutcome(s: State, t: Tuning, target: string, k: Key, outcome: Outcome, now: int, later: int, until: int)
    requires HeldBack(s, target, until) && k != TargetKey(target) && k in s.entries
    ensures HeldBack(AfterOutcome(s, t, k, outcome, now, later), target, until)
  {
  }

  lemma CalmResult(st: State, t: Tuning, target: string, other: string, outcome: Outcome, now: int, later: int, until: int)
    requires HeldBack(st, target, until) && now < until && later < until
    ensures HeldBack(AfterTargetResult(st, t, other, outcome, now, later), target, until)
  {
    var key := TargetKey(other);
    CalmUpkeep(st, target, now, later, until, other, key);
    var s := Ensured(Pruned(st, now), key);
    assert HeldBack(s, target, until);
    CalmUpkeep(s, target, now, later, until, other, key);
    var cleared := Put(s, key, EntryAt(s, key).(failures := 0, breaker := Never));
    assert HeldBack(cleared, target, until);
    CalmUpkeep(cleared, target, now, later, until, other, key);
  }

  lemma CalmReading(st: State, t: Tuning, target: string, step: Step, from: int)
    requires HeldBack(st, target, from + 45_000) && step.SourceRead? && from <= step.now < from + 45_000
    requires !(SingleOn(t, step, target) && step.body >= 4_194_304)
    ensures HeldBack(AfterStep(st, t, step), target, from + 45_000)
  {
    CalmUpkeep(st, target, step.now, step.now, from + 45_000, step.target, TargetKey(step.target));
    if ReadingOf(t, step, target) {
      ReadingOpens(st, t, step, target);
    }
  }

  lemma CalmQuery(st: State, target: string, k: Key, now: int, later: int, until: int)
    requires HeldBack(st, target, until) && now < until && later < until
    ensures HeldBack(AfterQuery(st, k, now, later), target, until)
  {
    CalmUpkeep(st, target, now, later, until, k.target, k);
    var s := Pruned(st, now);
    CalmUpkeep(s, target, now, later, until, k.target, k);
    if k in s.entries {
      var closed := Put(s, k, s.entries[k].(breaker := Never, failures := 0));
      assert HeldBack(closed, target, until);
      CalmUpkeep(closed, target, now, later, until, k.target, k);
      CalmUpkeep(DeleteIfIdle(closed, k, later), target, now, later, until, k.target, k);
    }
  }

  lemma CalmStep(l: Ledger, t: Tuning, step: Step, target: string, from: int)
    requires HeldBack(l.control, target, from + 45_000) && Enabled(l, step)
    requires Calm(l, t, step, target, from, from + 45_000)
    ensures HeldBack(Next(l, t, step).control, target, from + 45_000)
  {
    var until := from + 45_000;
    var st := l.control;
    match step
    case Acquire(_, k, now, later) => CalmAcquire(st, target, k, now, later, until);
    case Release(id, outcome, now, later) => CalmRelease(st, t, target, l.leases[id].key, outcome, now, later, until);
    case TargetResult(other, outcome, now, later) => CalmResult(st, t, target, other, outcome, now, later, until);
    case SourceRead(_, _, _, _, _) => CalmReading(st, t, target, step, from);
    case TargetQuery(other, now, later) =>
      CalmUpkeep(st, target, now, later, until, other, TargetKey(other));
      CalmUpkeep(Pruned(st, now), target, now, later, until, other, TargetKey(other));
    case ConstraintQuery(other, now) =>
      CalmUpkeep(st, target, now, now, until, other, TargetKey(other));
      CalmUpkeep(Pruned(st, now), target, now, now, until, other, TargetKey(other));
    case BreakerQuery(k, now, later) => CalmQuery(st, target, k, now, later, until);
  }

  ghost predicate CalmRun(l: Ledger, t: Tuning, steps: seq<Step>, target: string, from: int)
    decreases |steps|
  {
    steps == [] || (Enabled(l, steps[0]) && Calm(l, t, steps[0], target, from, from + 45_000)
                    && CalmRun(Next(l, t, steps[0]), t, steps[1..], target, from))
  }

  /** A target held back stays so for its whole time, through every cleanup, query, transfer and result. */
  lemma {:induction false} ConstraintHolds(l: Ledger, t: Tuning, steps: seq<Step>, l': Ledger, target: string, from: int)
    requires HeldBack(l.control, target, from + 45_000)
    requires Runs(l, t, steps, l') && CalmRun(l, t, steps, target, from)
    ensures HeldBack(l'.control, target, from + 45_000)
    decreases |steps|
  {
    if steps != [] {
      CalmStep(l, t, steps[0], target, from);
      ConstraintHolds(Next(l, t, steps[0]), t, steps[1..], l', target, from);
    }
  }

  /** Meanwhile the query says so, and so does every lease for the target. */
  lemma ConstraintIsSeen(st: State, t: Tuning, target: string, until: int, k: Key, now: int, later: int)
    requires HeldBack(st, target, until) && now < until && later < until && k.target == target
    ensures Constrained(Pruned(st, now), target, now)
    ensures LeaseOf(Opened(st, k, now), t, k, now, later).sourceConstrained
  {
    CalmUpkeep(st, target, now, later, until, target, k);
    var s := Opened(st, k, now);
    assert HeldBack(s, target, until);
    CalmUpkeep(s, target, now, later, until, target, k);
  }
}
