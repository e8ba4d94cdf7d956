/**
 What the download controller holds against a target, told by the history of the run: its failures,
 its breaker, its slow readings and its source constraint, each with everything that clears it.
 */
module TargetHistory {
  import opened DownloadControl
  import opened DownloadBreaker

  // ---------- Readings ----------

  /** A reading that the controller takes note of. */
  predicate ReadingOf(t: Tuning, step: Step, target: string) {
    step.SourceRead? && step.target == target && target != "" && step.body > 0 && t.watchSource
  }

  /** Several segments got clearly less than they were granted. */
  predicate SlowOn(t: Tuning, step: Step, target: string) {
    ReadingOf(t, step, target) && step.segments > 1 && step.effective > 0 && step.body * 100 <= step.effective * 85
  }

  predicate SingleOn(t: Tuning, step: Step, target: string) {
    ReadingOf(t, step, target) && step.segments <= 1
  }

  // ---------- The history of a target ----------

  /** What is held against a target: failures that count and when its breaker closes, slow readings that count and until when it is held back. */
  datatype Standing = Standing(failures: nat, breaker: Until, hits: nat, constrained: Until)

  const GOOD := Standing(0, Never, 0, Never)

  function StandingOf(st: State, target: string): Standing {
    var e := EntryAt(st, TargetKey(target));
    Standing(e.failures, e.breaker, e.hits, e.constrained)
  }

  /** Neither a lease under the target's own key nor an open breaker or constraint keeps it in mind. */
  predicate Loose(s: Standing, held: nat, now: int) {
    held == 0 && !Ahead(now, s.breaker) && !Ahead(now, s.constrained)
  }

  /** Without failures it is then dropped, slow readings included. */
  function Dropped(s: Standing, held: nat, later: int): Standing {
    if Loose(s, held, later) && s.failures == 0 then GOOD else s
  }

  function Pardoned(s: Standing): Standing {
    s.(failures := 0, breaker := Never)
  }

  /** Looking at the breaker closes an expired one and drops what nothing keeps. */
  function Looked(s: Standing, held: nat, now: int, later: int): Standing {
    if s.breaker.Never? then Dropped(s, held, later)
    else if Past(now, s.breaker) then Dropped(Pardoned(s), held, later)
    else s
  }

  /** Looking at the constraint lifts an expired one. */
  function Lifted(s: Standing, now: int): Standing {
    if s.constrained.At? && Past(now, s.constrained) then s.(constrained := Never, hits := 0) else s
  }

  /** The end of a segment counted under the target's own key, with this many others left. */
  function AfterOwnSegment(t: Tuning, outcome: Outcome, now: int, later: int, s: Standing, left: nat): Standing {
    if outcome.Success? then Dropped(if left == 0 && s.failures > 0 then Pardoned(s) else s, left, later)
    else if outcome.severe || s.failures + 1 >= t.threshold then s.(failures := s.failures + 1, breaker := At(now + t.openFor))
    else if left == 0 then GOOD
    else s.(failures := s.failures + 1)
  }

  function AfterResult(t: Tuning, outcome: Outcome, now: int, later: int, s: Standing, held: nat): Standing {
    if outcome.Success? || outcome.benign then Dropped(if s.failures > 0 then Pardoned(s) else s, held, later)
    else if outcome.severe || s.failures + 1 >= t.threshold then s.(failures := s.failures + 1, breaker := At(now + t.openFor))
    else s.(failures := s.failures + 1)
  }

  function AfterReading(t: Tuning, step: Step, target: string, s: Standing): Standing
    requires ReadingOf(t, step, target)
  {
    if SlowOn(t, step, target) then s.(hits := s.hits + 1, constrained := if s.hits > 0 then At(step.now + 45_000) else s.constrained)
    else if SingleOn(t, step, target) then s.(hits := 0, constrained := if step.body >= 4_194_304 then Never else s.constrained)
    else s
  }

  /** A prune clears the standing of a target that nothing keeps. */
  ghost predicate Swept(l: Ledger, t: Tuning, step: Step, s: Standing, target: string) {
    Sweeps(l, t, step) && Loose(s, |HeldBy(l.leases, TargetKey(target))|, step.now)
  }

  /** The breaker of the transfer itself, whose history `RecordIsExact` gives, answers before that of its target. */
  ghost predicate OwnAnswers(l: Ledger, t: Tuning, step: Step, target: string)
    requires step.Acquire? || step.BreakerQuery?
  {
    && step.key != TargetKey(target)
    && if step.Acquire? then Ahead(step.now, RecordOf(l.control, step.key).until)
       else !Past(step.now, if Forgets(l, t, step, RecordOf(l.control, step.key), step.key) then Never else RecordOf(l.control, step.key).until)
  }

  /** The history of a target, told by its own events. */
  ghost function NextStanding(l: Ledger, t: Tuning, step: Step, s0: Standing, target: string): Standing
    requires Enabled(l, step)
  {
    var s, held := if Swept(l, t, step, s0, target) then GOOD else s0, |HeldBy(l.leases, TargetKey(target))|;
    match step
    case Acquire(_, k, now, later) =>
      if k.target != target then s
      else Lifted(if OwnAnswers(l, t, step, target) then s else Looked(s, if k == TargetKey(target) then held + 1 else held, now, later), now)
    case Release(id, outcome, now, later) =>
      if l.leases[id].key == TargetKey(target) && held > 0 then AfterOwnSegment(t, outcome, now, later, s, held - 1) else s
    case TargetResult(other, outcome, now, later) => if other == target && target != "" then AfterResult(t, outcome, now, later, s, held) else s
    case SourceRead(_, _, _, _, _) => if ReadingOf(t, step, target) then AfterReading(t, step, target, s) else s
    case TargetQuery(other, now, later) => if other == target && target != "" then Looked(s, held, now, later) else s
    case ConstraintQuery(other, now) => if other == target && target != "" then Lifted(s, now) else s
    case BreakerQuery(k, now, later) =>
      if k.target != target || OwnAnswers(l, t, step, target) then s
      else if k != TargetKey(target) then Looked(s, held, now, later)
      else if Past(now, s.breaker) then Dropped(Pardoned(s), held, later)
      else s
  }

  ghost function StandingAfter(l: Ledger, t: Tuning, steps: seq<Step>, s: Standing, target: string, l': Ledger): Standing
    requires Runs(l, t, steps, l')
    decreases |steps|
  {
    if steps == [] then s
    else StandingAfter(Next(l, t, steps[0]), t, steps[1..], NextStanding(l, t, steps[0], s, target), target, l')
  }

  // ---------- The controller follows it ----------

  lemma StandsPruned(st: State, target: string, now: int)
    ensures var s := StandingOf(st, target);
            StandingOf(Pruned(st, now), target) == if PruneDue(st, now) && Loose(s, Held(st, TargetKey(target)), now) then GOOD else s
  {
  }

  lemma StandsLooked(st: State, target: string, other: string, now: int, later: int)
    ensures StandingOf(AfterTargetBreaker(st, other, now, later), target) ==
            if other == target then Looked(StandingOf(st, target), Held(st, TargetKey(target)), now, later) else StandingOf(st, target)
  {
  }

  lemma StandsLifted(st: State, target: string, other: string, now: int)
    ensures StandingOf(AfterConstrained(st, other, now), target) ==
            if other == target then Lifted(StandingOf(st, target), now) else StandingOf(st, target)
  {
  }

  lemma StandsAcquire(st: State, target: string, k: Key, now: int, later: int)
    ensures var key, s := TargetKey(target), StandingOf(Pruned(st, now), target);
            StandingOf(AfterAcquire(st, k, now, later), target) ==
            if k.target != target then s
            else if Before(now, EntryAt(Pruned(st, now), k).breaker) then Lifted(s, now)
            else Lifted(Looked(s, if k == key then Held(st, key) + 1 else Held(st, key), now, later), now)
  {
    var s := Opened(st, k, now);
    PruneKeepsLeases(st, now);
    assert Held(st, TargetKey(target)) == Held(Pruned(st, now), TargetKey(target));
    assert StandingOf(s, target) == StandingOf(Pruned(st, now), target);
    assert EntryAt(s, k).breaker == EntryAt(Pruned(st, now), k).breaker;
    var s' := if Before(now, EntryAt(s, k).breaker) then s else AfterTargetBreaker(s, k.target, now, later);
    StandsLooked(s, target, k.target, now, later);
    StandsLifted(s', target, k.target, now);
  }

  lemma StandsOutcome(s: State, t: Tuning, target: string, k: Key, outcome: Outcome, now: int, later: int)
    requires k in s.entries
    ensures StandingOf(AfterOutcome(s, t, k, outcome, now, later), target) ==
            if k == TargetKey(target) then AfterOwnSegment(t, outcome, now, later, StandingOf(s, target), Held(s, k)) else StandingOf(s, target)
  {
  }

  lemma StandsRelease(st: State, t: Tuning, target: string, k: Key, outcome: Outcome, now: int, later: int)
    requires Held(st, k) > 0
    ensures StandingOf(AfterRelease(st, t, k, outcome, now, later), target) ==
            if k == TargetKey(target) then AfterOwnSegment(t, outcome, now, later, StandingOf(Pruned(st, now), target), Held(st, k) - 1)
            else StandingOf(Pruned(st, now), target)
  {
    PruneKeepsLeases(st, now);
    assert Held(st, k) == Held(Pruned(st, now), k);
    var s := Discounted(Pruned(st, now), k);
    assert StandingOf(s, target) == StandingOf(Pruned(st, now), target) && Held(s, k) == Held(st, k) - 1;
    StandsOutcome(s, t, target, k, outcome, now, later);
  }

  lemma StandsResult(st: State, t: Tuning, target: string, other: string, outcome: Outcome, now: int, later: int)
    requires other != ""
    ensures StandingOf(AfterTargetResult(st, t, other, outcome, now, later), target) ==
            if other == target then AfterResult(t, outcome, now, later, StandingOf(Pruned(st, now), target), Held(st, TargetKey(target)))
            else StandingOf(Pruned(st, now), target)
  {
    PruneKeepsLeases(st, now);
    var p, key := Pruned(st, now), TargetKey(other);
    assert Held(st, TargetKey(target)) == Held(p, TargetKey(target));
    var e := EntryAt(p, key);
    assert StandingOf(Ensured(p, key), target) == StandingOf(p, target) && EntryAt(Ensured(p, key), key) == e;
    StandsPut(p, target, key, e.(failures := 0, breaker := Never), later);
    StandsPut(p, target, key, e, later);
  }

  lemma StandsPut(p: State, target: string, key: Key, e: Entry, later: int)
    ensures var s := if key == TargetKey(target) then Standing(e.failures, e.breaker, e.hits, e.constrained) else StandingOf(p, target);
            && StandingOf(Put(p, key, e), target) == s
            && StandingOf(DeleteIfIdle(Put(p, key, e), key, later), target) ==
               if key == TargetKey(target) then Dropped(s, e.segments, later) else s
  {
  }

  lemma StandsReading(st: State, t: Tuning, target: string, step: Step)
    requires step.SourceRead? && Prunes(t, step)
    ensures StandingOf(AfterStep(st, t, step), target) ==
            if ReadingOf(t, step, target) then AfterReading(t, step, target, StandingOf(Pruned(st, step.now), target))
            else StandingOf(Pruned(st, step.now), target)
  {
  }

  lemma StandsQuery(st: State, target: string, k: Key, now: int, later: int)
    ensures var key, s := TargetKey(target), StandingOf(Pruned(st, now), target);
            StandingOf(AfterQuery(st, k, now, later), target) ==
            if k.target != target || !After(now, EntryAt(Pruned(st, now), k).breaker) then s
            else if k == key then Dropped(Pardoned(s), Held(st, key), later)
            else Looked(s, Held(st, key), now, later)
  {
    PruneKeepsLeases(st, now);
    assert Held(st, TargetKey(target)) == Held(Pruned(st, now), TargetKey(target));
    var p := Pruned(st, now);
    StandsLooked(p, target, k.target, now, later);
    if k in p.entries && After(now, p.entries[k].breaker) {
      var closed := DeleteIfIdle(Put(p, k, p.entries[k].(breaker := Never, failures := 0)), k, later);
      StandsClosed(p, target, k, later, closed);
      StandsLooked(closed, target, k.target, now, later);
    }
  }

  lemma StandsClosed(p: State, target: string, k: Key, later: int, closed: State)
    requires k in p.entries && closed == DeleteIfIdle(Put(p, k, p.entries[k].(breaker := Never, failures := 0)), k, later)
    ensures Held(closed, TargetKey(target)) == Held(p, TargetKey(target))
    ensures StandingOf(closed, target) ==
            if k == TargetKey(target) then Dropped(Pardoned(StandingOf(p, target)), Held(p, k), later) else StandingOf(p, target)
  {
  }

  /** A prune takes a breaker away only once it is not open. */
  lemma BreakerPruned(st: State, k: Key, now: int)
    ensures Before(now, EntryAt(Pruned(st, now), k).breaker) <==> Before(now, EntryAt(st, k).breaker)
  {
  }

  /** Only targets have a source constraint. */
  ghost predicate Tidy(st: State) {
    forall k :: Own(k) ==> Regular(st, k)
  }

  lemma TidyStep(l: Ledger, t: Tuning, step: Step)
    requires Enabled(l, step) && Balanced(l.control, l.leases) && Tidy(l.control)
    ensures Tidy(Next(l, t, step).control)
  {
    forall k | Own(k)
      ensures Regular(Next(l, t, step).control, k)
    {
      ShowsStep(l, t, step, k, RecordOf(l.control, k));
    }
  }

  /** Whether the transfer's own breaker answers is a matter of its record. */
  lemma OwnAnswersIs(l: Ledger, t: Tuning, step: Step)
    requires Balanced(l.control, l.leases) && Tidy(l.control) && (step.Acquire? || step.BreakerQuery?) && Own(step.key)
    ensures var until := EntryAt(Pruned(l.control, step.now), step.key).breaker;
            OwnAnswers(l, t, step, step.key.target) <==> if step.Acquire? then Before(step.now, until) else !After(step.now, until)
  {
    var rec := RecordOf(l.control, step.key);
    assert Held(l.control, step.key) == |HeldBy(l.leases, step.key)|;
    assert Regular(l.control, step.key);
    ShowsPruned(l.control, step.key, rec, step.now);
    BreakerPruned(l.control, step.key, step.now);
  }

  lemma StandsAcquiring(l: Ledger, t: Tuning, step: Step, target: string)
    requires Enabled(l, step) && Balanced(l.control, l.leases) && Tidy(l.control) && step.Acquire?
    ensures StandingOf(Next(l, t, step).control, target) == NextStanding(l, t, step, StandingOf(l.control, target), target)
  {
    var st, k := l.control, step.key;
    assert Held(st, TargetKey(target)) == |HeldBy(l.leases, TargetKey(target))|;
    StandsPruned(st, target, step.now);
    StandsAcquire(st, target, k, step.now, step.later);
    if k.target == target && Own(k) {
      OwnAnswersIs(l, t, step);
    }
  }

  lemma StandsAsking(l: Ledger, t: Tuning, step: Step, target: string)
    requires Enabled(l, step) && Balanced(l.control, l.leases) && Tidy(l.control) && step.BreakerQuery?
    ensures StandingOf(Next(l, t, step).control, target) == NextStanding(l, t, step, StandingOf(l.control, target), target)
  {
    var st, k := l.control, step.key;
    assert Held(st, TargetKey(target)) == |HeldBy(l.leases, TargetKey(target))|;
    StandsPruned(st, target, step.now);
    StandsQuery(st, target, k, step.now, step.later);
    if k.target == target && Own(k) {
      OwnAnswersIs(l, t, step);
    }
  }

  lemma StandsStep(l: Ledger, t: Tuning, step: Step, target: string)
    requires Enabled(l, step) && Balanced(l.control, l.leases) && Tidy(l.control)
    ensures StandingOf(Next(l, t, step).control, target) == NextStanding(l, t, step, StandingOf(l.control, target), target)
  {
    var st, key := l.control, TargetKey(target);
    assert Held(st, key) == |HeldBy(l.leases, key)|;
    StandsPruned(st, target, step.now);
    if Prunes(t, step) {
      match step {
        case Acquire(_, _, _, _) => StandsAcquiring(l, t, step, target);
        case Release(id, outcome, now, later) =>
          assert id in HeldBy(l.leases, l.leases[id].key);
          StandsRelease(st, t, target, l.leases[id].key, outcome, now, later);
        case TargetResult(other, outcome, now, later) => StandsResult(st, t, target, other, outcome, now, later);
        case SourceRead(_, _, _, _, _) => StandsReading(st, t, target, step);
        case TargetQuery(other, now, later) => StandsLooked(Pruned(st, now), target, other, now, later);
        case ConstraintQuery(other, now) => StandsLifted(Pruned(st, now), target, other, now);
        case BreakerQuery(_, _, _) => StandsAsking(l, t, step, target);
      }
    }
  }

  lemma {:induction false} StandsRun(l: Ledger, t: Tuning, steps: seq<Step>, target: string, l': Ledger)
    requires Runs(l, t, steps, l') && Balanced(l.control, l.leases) && Tidy(l.control)
    ensures Balanced(l'.control, l'.leases) && Tidy(l'.control)
    ensures StandingOf(l'.control, target) == StandingAfter(l, t, steps, StandingOf(l.control, target), target, l')
    decreases |steps|
  {
    if steps != [] {
      StepBalances(l, t, steps[0]);
      TidyStep(l, t, steps[0]);
      StandsStep(l, t, steps[0], target);
      StandsRun(Next(l, t, steps[0]), t, steps[1..], target, l');
    }
  }

  ghost function HistoryOf(t: Tuning, steps: seq<Step>, target: string, l: Ledger): Standing
    requires Runs(EMPTY, t, steps, l)
  {
    StandingAfter(EMPTY, t, steps, GOOD, target, l)
  }

  /** Over every run, what the controller holds against a target is exactly its history. */
  lemma StandingIsExact(t: Tuning, steps: seq<Step>, target: string, l: Ledger)
    requires Runs(EMPTY, t, steps, l)
    ensures Balanced(l.control, l.leases) && Tidy(l.control) && StandingOf(l.control, target) == HistoryOf(t, steps, target, l)
  {
    StartIsBalanced(t);
    StandsRun(EMPTY, t, steps, target, l);
  }

  // ---------- When the breaker of a target opens ----------

  /** After any run, a failure of a target opens its breaker exactly when it is severe or reaches the threshold together with the failures that still count. */
  lemma TargetTrips(t: Tuning, steps: seq<Step>, l: Ledger, target: string, outcome: Outcome, now: int, later: int)
    requires Runs(EMPTY, t, steps, l) && target != "" && outcome.Failure? && !outcome.benign
    ensures var step, s0 := TargetResult(target, outcome, now, later), HistoryOf(t, steps, target, l);
            var s := if Swept(l, t, step, s0, target) then GOOD else s0;
            var s' := StandingOf(Next(l, t, step).control, target);
            && s'.failures == s.failures + 1
            && s'.breaker == if outcome.severe || s.failures + 1 >= t.threshold then At(now + t.openFor) else s.breaker
  {
    StandingIsExact(t, steps, target, l);
    StandsStep(l, t, TargetResult(target, outcome, now, later), target);
  }

  // ---------- What queries and leases answer ----------

  /** The breaker or constraint has not run out. */
  predicate Holds(now: int, until: Until) {
    until.At? && now <= until.time
  }

  /** The history as a step finds it, after the prune that may come with it. */
  ghost function Found(l: Ledger, t: Tuning, step: Step, s: Standing, target: string): Standing {
    if Swept(l, t, step, s, target) then GOOD else s
  }

  lemma FoundIs(t: Tuning, steps: seq<Step>, l: Ledger, step: Step, target: string)
    requires Runs(EMPTY, t, steps, l) && Prunes(t, step)
    ensures Balanced(l.control, l.leases) && Tidy(l.control)
    ensures StandingOf(Pruned(l.control, step.now), target) == Found(l, t, step, HistoryOf(t, steps, target, l), target)
  {
    StandingIsExact(t, steps, target, l);
    assert Held(l.control, TargetKey(target)) == |HeldBy(l.leases, TargetKey(target))|;
    StandsPruned(l.control, target, step.now);
  }

  /** After any run, the query of a target says yes exactly while the breaker that its history gives has not run out, and likewise for the constraint. */
  lemma TargetAnswers(t: Tuning, steps: seq<Step>, l: Ledger, target: string, now: int, later: int)
    requires Runs(EMPTY, t, steps, l) && target != ""
    ensures var s := Found(l, t, TargetQuery(target, now, later), HistoryOf(t, steps, target, l), target);
            TargetBreaker(Pruned(l.control, now), target, now) <==> Holds(now, s.breaker)
    ensures var s := Found(l, t, ConstraintQuery(target, now), HistoryOf(t, steps, target, l), target);
            Constrained(Pruned(l.control, now), target, now) <==> Holds(now, s.constrained)
  {
    FoundIs(t, steps, l, TargetQuery(target, now, later), target);
    FoundIs(t, steps, l, ConstraintQuery(target, now), target);
  }

  lemma RecordFound(t: Tuning, steps: seq<Step>, l: Ledger, step: Step, key: Key, rec: Record)
    requires Runs(EMPTY, t, steps, l) && Prunes(t, step) && Own(key) && rec == RecordAfter(EMPTY, t, steps, CLEAR, key, l)
    ensures EntryAt(Pruned(l.control, step.now), key).breaker == if Forgets(l, t, step, rec, key) then Never else rec.until
  {
    HistoryShows(t, steps, l, key, rec);
    assert Held(l.control, key) == |HeldBy(l.leases, key)|;
    ShowsPruned(l.control, key, rec, step.now);
  }

  /** The query of a transfer says yes exactly while its own breaker or that of its target has not run out. */
  lemma QueryAnswers(t: Tuning, steps: seq<Step>, l: Ledger, key: Key, now: int, later: int, rec: Record)
    requires Runs(EMPTY, t, steps, l) && Own(key) && rec == RecordAfter(EMPTY, t, steps, CLEAR, key, l)
    ensures var step := BreakerQuery(key, now, later);
            var s := Found(l, t, step, HistoryOf(t, steps, key.target, l), key.target);
            Query(l.control, key, now, later) <==>
              (Holds(now, rec.until) && !Forgets(l, t, step, rec, key)) || Holds(now, s.breaker)
  {
    var step := BreakerQuery(key, now, later);
    FoundIs(t, steps, l, step, key.target);
    RecordFound(t, steps, l, step, key, rec);
    var p := Pruned(l.control, now);
    if key in p.entries && After(now, p.entries[key].breaker) {
      var closed := DeleteIfIdle(Put(p, key, p.entries[key].(breaker := Never, failures := 0)), key, later);
      StandsClosed(p, key.target, key, later, closed);
    }
  }

  /** A lease says that the breaker is open exactly if its own or that of its target is, and held back exactly if its target still is. */
  lemma LeaseAnswers(t: Tuning, steps: seq<Step>, l: Ledger, id: nat, key: Key, now: int, later: int, rec: Record)
    requires Runs(EMPTY, t, steps, l) && id !in l.leases && Own(key) && rec == RecordAfter(EMPTY, t, steps, CLEAR, key, l)
    ensures var step := Acquire(id, key, now, later);
            var s, lease := Found(l, t, step, HistoryOf(t, steps, key.target, l), key.target), Next(l, t, step).leases[id];
            var held := |HeldBy(l.leases, TargetKey(key.target))|;
            && (lease.breakerOpen <==> Ahead(now, rec.until) || Holds(now, s.breaker))
            && (lease.sourceConstrained <==> Holds(now, (if Ahead(now, rec.until) then s else Looked(s, held, now, later)).constrained))
  {
    var step := Acquire(id, key, now, later);
    FoundIs(t, steps, l, step, key.target);
    RecordFound(t, steps, l, step, key, rec);
    var p, o := Pruned(l.control, now), Opened(l.control, key, now);
    PruneKeepsLeases(l.control, now);
    assert Held(p, TargetKey(key.target)) == Held(l.control, TargetKey(key.target)) == |HeldBy(l.leases, TargetKey(key.target))|;
    assert StandingOf(o, key.target) == StandingOf(p, key.target) && EntryAt(o, key).breaker == EntryAt(p, key).breaker;
    StandsLooked(o, key.target, key.target, now, later);
  }

  // ---------- When a slow reading holds the target back ----------

  /** Looking at the breaker drops a standing without open failures that nothing keeps. */
  predicate LookDrops(s: Standing, held: nat, now: int, later: int) {
    held == 0 && !Ahead(later, s.constrained) &&
    if s.breaker.Never? then s.failures == 0 else Past(now, s.breaker)
  }

  predicate Lapsed(s: Standing, now: int) {
    s.constrained.At? && Past(now, s.constrained)
  }

  /**
   The steps that clear the slow readings of a target: a prune that finds nothing to keep; a reading
   of a single segment; a look at an expired constraint; and a look at the breaker, a good result or
   the end of a segment that leaves nothing to keep.
   */
  ghost predicate Clears(l: Ledger, t: Tuning, step: Step, s: Standing, target: string)
    requires Enabled(l, step)
  {
    var held := |HeldBy(l.leases, TargetKey(target))|;
    || Swept(l, t, step, s, target)
    || match step
       case Acquire(_, k, now, later) =>
         k.target == target &&
         (Lapsed(s, now) || (k != TargetKey(target) && !OwnAnswers(l, t, step, target) && LookDrops(s, held, now, later)))
       case Release(id, outcome, now, later) =>
         && l.leases[id].key == TargetKey(target) && held == 1
         && if outcome.Success? then !Ahead(later, s.constrained) && (s.failures > 0 || !Ahead(later, s.breaker))
            else !outcome.severe && s.failures + 1 < t.threshold
       case TargetResult(other, outcome, _, later) =>
         && other == target && target != "" && (outcome.Success? || outcome.benign)
         && held == 0 && !Ahead(later, s.constrained) && (s.failures > 0 || !Ahead(later, s.breaker))
       case SourceRead(_, _, _, _, _) => SingleOn(t, step, target)
       case TargetQuery(other, now, later) => other == target && target != "" && LookDrops(s, held, now, later)
       case ConstraintQuery(other, now) => other == target && target != "" && Lapsed(s, now)
       case BreakerQuery(k, now, later) =>
         && k.target == target && !OwnAnswers(l, t, step, target)
         && if k == TargetKey(target) then Past(now, s.breaker) && held == 0 && !Ahead(later, s.constrained)
            else LookDrops(s, held, now, later)
  }

  /** A slow reading is remembered after a step exactly if the step is one, or one was and the step does not clear it. */
  lemma RemembersStep(l: Ledger, t: Tuning, step: Step, s: Standing, target: string)
    requires Enabled(l, step)
    ensures NextStanding(l, t, step, s, target).hits > 0 <==> SlowOn(t, step, target) || (s.hits > 0 && !Clears(l, t, step, s, target))
  {
  }

  /** None of the steps clears what is remembered. */
  ghost predicate Lingers(l: Ledger, t: Tuning, steps: seq<Step>, s: Standing, target: string, l': Ledger)
    requires Runs(l, t, steps, l')
    decreases |steps|
  {
    steps == [] || (&& !Clears(l, t, steps[0], s, target)
                    && Lingers(Next(l, t, steps[0]), t, steps[1..], NextStanding(l, t, steps[0], s, target), target, l'))
  }

  /** One of the steps is a slow reading that none after it clears. */
  ghost predicate SlowLingers(l: Ledger, t: Tuning, steps: seq<Step>, s: Standing, target: string, l': Ledger)
    requires Runs(l, t, steps, l')
    decreases |steps|
  {
    steps != [] &&
    var next, s' := Next(l, t, steps[0]), NextStanding(l, t, steps[0], s, target);
    (SlowOn(t, steps[0], target) && Lingers(next, t, steps[1..], s', target, l')) || SlowLingers(next, t, steps[1..], s', target, l')
  }

  lemma {:induction false} RemembersRun(l: Ledger, t: Tuning, steps: seq<Step>, s: Standing, target: string, l': Ledger)
    requires Runs(l, t, steps, l')
    ensures StandingAfter(l, t, steps, s, target, l').hits > 0 <==>
              SlowLingers(l, t, steps, s, target, l') || (s.hits > 0 && Lingers(l, t, steps, s, target, l'))
    decreases |steps|
  {
    if steps != [] {
      RemembersStep(l, t, steps[0], s, target);
      RemembersRun(Next(l, t, steps[0]), t, steps[1..], NextStanding(l, t, steps[0], s, target), target, l');
    }
  }

  /**
   After any run, a reading holds the target back exactly if it is slow and an earlier slow reading
   has been cleared neither by the steps since nor by the prune that comes with this one.
   */
  lemma SlowReadingOpens(t: Tuning, steps: seq<Step>, l: Ledger, step: Step, target: string)
    requires Runs(EMPTY, t, steps, l) && ReadingOf(t, step, target)
    ensures var s := HistoryOf(t, steps, target, l);
            StandingOf(Next(l, t, step).control, target).constrained ==
            if SlowOn(t, step, target) && SlowLingers(EMPTY, t, steps, GOOD, target, l) && !Swept(l, t, step, s, target)
            then At(step.now + 45_000)
            else if (SingleOn(t, step, target) && step.body >= 4_194_304) || Swept(l, t, step, s, target) then Never
            else s.constrained
  {
    StandingIsExact(t, steps, target, l);
    StandsStep(l, t, step, target);
    RemembersRun(EMPTY, t, steps, GOOD, target, l);
  }
}
