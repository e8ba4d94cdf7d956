/**
 The breakers of the download controller over whole runs: what opens them, what they forget, and how
 long they hold.
 */
module DownloadBreaker {
  import opened DownloadControl

  // ---------- The breaker of a target ----------

  /** The breaker of the target is open until `until` or longer. */
  ghost predicate Tripped(st: State, target: string, until: int) {
    && TargetKey(target) in st.entries && st.entries[TargetKey(target)].failures > 0
    && st.entries[TargetKey(target)].breaker.At? && st.entries[TargetKey(target)].breaker.time >= until
  }

  /** A step within the given time that neither reports a success of the target nor ends a transfer counted under its key. */
  predicate Quiet(l: Ledger, step: Step, target: string, from: int, until: int) {
    && from <= step.now < until
    && (step.TargetResult? && step.target == target ==> step.outcome.Failure? && !step.outcome.benign)
    && (step.Release? && step.id in l.leases ==> l.leases[step.id].key != TargetKey(target))
  }

  /** A failure counts, and opens the breaker exactly when it is severe or the remembered failures reach the threshold. */
  lemma FailureTrips(st: State, t: Tuning, target: string, outcome: Outcome, now: int, later: int)
    requires target != "" && outcome.Failure? && !outcome.benign
    ensures var e := EntryAt(Pruned(st, now), TargetKey(target));
            var st' := AfterTargetResult(st, t, target, outcome, now, later);
            var opens := outcome.severe || e.failures + 1 >= t.threshold;
            && EntryAt(st', TargetKey(target)).failures == e.failures + 1
            && EntryAt(st', TargetKey(target)).breaker == (if opens then At(now + t.openFor) else e.breaker)
            && (opens ==> Tripped(st', target, now + t.openFor))
  {
  }

  lemma QuietUpkeep(st: State, target: string, now: int, later: int, until: int, other: string, key: Key)
    requires Tripped(st, target, until) && now < until
    ensures Tripped(Pruned(st, now), target, until)
    ensures Tripped(AfterTargetBreaker(st, other, now, later), target, until)
    ensures Tripped(AfterConstrained(st, other, now), target, until)
    ensures Tripped(DeleteIfIdle(st, key, later), target, until)
  {
  }

  lemma QuietAcquire(st: State, target: string, key: Key, now: int, later: int, until: int)
    requires Tripped(st, target, until) && now < until
    ensures Tripped(Opened(st, key, now), target, until)
    ensures Tripped(AfterAcquire(st, key, now, later), target, until)
  {
    QuietUpkeep(st, target, now, later, until, key.target, key);
    var s := Opened(st, key, now);
    assert Tripped(s, target, until);
    QuietUpkeep(s, target, now, later, until, key.target, key);
    QuietUpkeep(AfterTargetBreaker(s, key.target, now, later), target, now, later, until, key.target, key);
  }

  lemma QuietRelease(st: State, t: Tuning, target: string, key: Key, outcome: Outcome, now: int, later: int, until: int)
    requires Tripped(st, target, until) && now < until && key != TargetKey(target)
    ensures Tripped(AfterRelease(st, t, key, outcome, now, later), target, until)
  {
    QuietUpkeep(st, target, now, later, until, key.target, key);
    var s := Discounted(Pruned(st, now), key);
    assert Tripped(s, target, until);
    if key in s.entries {
      QuietOutcome(s, t, target, key, outcome, now, later, until);
    }
  }

  lemma QuietOutcome(s: State, t: Tuning, target: string, key: Key, outcome: Outcome, now: int, later: int, until: int)
    requires Tripped(s, target, until) && key != TargetKey(target) && key in s.entries
    ensures Tripped(AfterOutcome(s, t, key, outcome, now, later), target, until)
  {
  }

  lemma QuietResult(st: State, t: Tuning, target: string, other: string, outcome: Outcome, now: int, later: int, from: int)
    requires Tripped(st, target, from + t.openFor) && from <= now < from + t.openFor
    requires other == target ==> outcome.Failure? && !outcome.benign
    ensures Tripped(AfterTargetResult(st, t, other, outcome, now, later), target, from + t.openFor)
  {
    QuietUpkeep(st, target, now, later, from + t.openFor, other, TargetKey(other));
  }

  lemma QuietSource(st: State, t: Tuning, target: string, other: string, body: int, effective: int, segments: int, now: int, until: int)
    requires Tripped(st, target, until) && now < until
    ensures Tripped(AfterSourceRead(st, t, other, body, effective, segments, now), target, until)
  {
    QuietUpkeep(st, target, now, now, until, other, TargetKey(other));
  }

  lemma QuietQuery(st: State, target: string, key: Key, now: int, later: int, until: int)
    requires Tripped(st, target, until) && now < until
    ensures Tripped(AfterQuery(st, key, now, later), target, until)
  {
    QuietUpkeep(st, target, now, later, until, key.target, key);
    var s := Pruned(st, now);
    QuietUpkeep(s, target, now, later, until, key.target, key);
    if key in s.entries && After(now, s.entries[key].breaker) {
      var closed := Put(s, key, s.entries[key].(breaker := Never, failures := 0));
      QuietUpkeep(closed, target, now, later, until, key.target, key);
      QuietUpkeep(DeleteIfIdle(closed, key, later), target, now, later, until, key.target, key);
    }
  }

  lemma QuietStep(l: Ledger, t: Tuning, step: Step, target: string, from: int)
    requires Tripped(l.control, target, from + t.openFor) && Enabled(l, step) && Quiet(l, step, target, from, from + t.openFor)
    ensures Tripped(Next(l, t, step).control, target, from + t.openFor)
  {
    var until := from + t.openFor;
    var st := l.control;
    match step
    case Acquire(_, key, now, later) => QuietAcquire(st, target, key, now, later, until);
    case Release(id, outcome, now, later) => QuietRelease(st, t, target, l.leases[id].key, outcome, now, later, until);
    case TargetResult(other, outcome, now, later) => QuietResult(st, t, target, other, outcome, now, later, from);
    case SourceRead(other, body, effective, segments, now) => QuietSource(st, t, target, other, body, effective, segments, now, until);
    case TargetQuery(other, now, later) =>
      QuietUpkeep(st, target, now, later, until, other, TargetKey(other));
      QuietUpkeep(Pruned(st, now), target, now, later, until, other, TargetKey(other));
    case ConstraintQuery(other, now) =>
      QuietUpkeep(st, target, now, now, until, other, TargetKey(other));
      QuietUpkeep(Pruned(st, now), target, now, now, until, other, TargetKey(other));
    case BreakerQuery(key, now, later) => QuietQuery(st, target, key, now, later, until);
  }

  ghost predicate QuietRun(l: Ledger, t: Tuning, steps: seq<Step>, target: string, from: int)
    decreases |steps|
  {
    steps == [] || (Enabled(l, steps[0]) && Quiet(l, steps[0], target, from, from + t.openFor)
                    && QuietRun(Next(l, t, steps[0]), t, steps[1..], target, from))
  }

  /** A tripped breaker stays open for its whole time, through every cleanup, query and transfer. */
  lemma {:induction false} BreakerHolds(l: Ledger, t: Tuning, steps: seq<Step>, l': Ledger, target: string, from: int)
    requires Tripped(l.control, target, from + t.openFor)
    requires Runs(l, t, steps, l') && QuietRun(l, t, steps, target, from)
    ensures Tripped(l'.control, target, from + t.openFor)
    decreases |steps|
  {
    if steps != [] {
      QuietStep(l, t, steps[0], target, from);
      BreakerHolds(Next(l, t, steps[0]), t, steps[1..], l', target, from);
    }
  }

  /** Until then every lease for the target gets at most half the rate it would otherwise get, and every query says that it is open. */
  lemma TrippedIsSeen(st: State, t: Tuning, target: string, until: int, key: Key, now: int, later: int)
    requires Tripped(st, target, until) && now < until && key.target == target
    ensures var lease := LeaseOf(Opened(st, key, now), t, key, now, later);
            var full := TransferRate(t, lease.transfers, false);
            lease.breakerOpen && lease.transferRate <= full && (full >= 2 ==> 2 * lease.transferRate <= full)
    ensures TargetBreaker(Pruned(st, now), target, now) && Query(st, key, now, later)
  {
    OpenHalves(t, Opened(st, key, now).transfers);
    QuietUpkeep(st, target, now, later, until, target, key);
    QuietAcquire(st, target, key, now, later, until);
    var s := Pruned(st, now);
    if key in s.entries && After(now, s.entries[key].breaker) {
      var closed := Put(s, key, s.entries[key].(breaker := Never, failures := 0));
      QuietUpkeep(closed, target, now, later, until, target, key);
    }
  }

  // ---------- The breaker of a transfer ----------

  /** What is held against a transfer: its failed segments that still count, and when its breaker closes. */
  datatype Record = Record(failed: nat, until: Until)

  const CLEAR := Record(0, Never)

  /** The key is not the one under which results of a target are kept. */
  predicate Own(key: Key) {
    key != TargetKey(key.target)
  }

  /** Queries and reports without a target return at once. */
  predicate Prunes(t: Tuning, step: Step) {
    match step
    case TargetResult(target, _, _, _) => target != ""
    case SourceRead(target, body, _, _, _) => target != "" && body > 0 && t.watchSource
    case TargetQuery(target, _, _) => target != ""
    case ConstraintQuery(target, _) => target != ""
    case _ => true
  }

  /** The time has not come yet. */
  predicate Ahead(now: int, until: Until) {
    until.At? && now < until.time
  }

  /** The time is over, or there is none; at the very time it is neither ahead nor over. */
  predicate Past(now: int, until: Until) {
    until.Never? || now > until.time
  }

  /** The step prunes: the first one that can, and then one at least a minute after the last. */
  predicate Sweeps(l: Ledger, t: Tuning, step: Step) {
    Prunes(t, step) && (l.control.lastPrune.Never? || step.now >= l.control.lastPrune.time + 60_000)
  }

  lemma SweepsAreNoted(l: Ledger, t: Tuning, step: Step)
    requires Enabled(l, step)
    ensures Next(l, t, step).control.lastPrune == if Sweeps(l, t, step) then At(step.now) else l.control.lastPrune
  {
    var st := l.control;
    match step
    case Acquire(_, k, now, later) =>
      UpkeepNotes(Opened(st, k, now), k.target, now, later, k);
      UpkeepNotes(AfterTargetBreaker(Opened(st, k, now), k.target, now, later), k.target, now, later, k);
    case Release(id, outcome, now, later) => ReleaseNotes(st, t, l.leases[id].key, outcome, now, later);
    case TargetResult(other, outcome, now, later) => ResultNotes(st, t, other, outcome, now, later);
    case SourceRead(_, _, _, _, _) =>
    case TargetQuery(other, now, later) => UpkeepNotes(Pruned(st, now), other, now, later, TargetKey(other));
    case ConstraintQuery(other, now) => UpkeepNotes(Pruned(st, now), other, now, now, TargetKey(other));
    case BreakerQuery(k, now, later) => QueryNotes(st, k, now, later);
  }

  lemma UpkeepNotes(st: State, other: string, now: int, later: int, k: Key)
    ensures AfterTargetBreaker(st, other, now, later).lastPrune == st.lastPrune
    ensures AfterConstrained(st, other, now).lastPrune == st.lastPrune && DeleteIfIdle(st, k, later).lastPrune == st.lastPrune
  {
  }

  lemma ReleaseNotes(st: State, t: Tuning, k: Key, outcome: Outcome, now: int, later: int)
    ensures AfterRelease(st, t, k, outcome, now, later).lastPrune == Pruned(st, now).lastPrune
  {
  }

  lemma ResultNotes(st: State, t: Tuning, other: string, outcome: Outcome, now: int, later: int)
    ensures AfterTargetResult(st, t, other, outcome, now, later).lastPrune == if other == "" then st.lastPrune else Pruned(st, now).lastPrune
  {
  }

  lemma QueryNotes(st: State, k: Key, now: int, later: int)
    ensures AfterQuery(st, k, now, later).lastPrune == Pruned(st, now).lastPrune
  {
    var s := Pruned(st, now);
    UpkeepNotes(s, k.target, now, later, k);
    if k in s.entries {
      var closed := Put(s, k, s.entries[k].(breaker := Never, failures := 0));
      UpkeepNotes(closed, k.target, now, later, k);
      UpkeepNotes(DeleteIfIdle(closed, k, later), k.target, now, later, k);
    }
  }

  /** A prune clears the record of a transfer without live lease whose breaker is not open. */
  ghost predicate Forgets(l: Ledger, t: Tuning, step: Step, rec: Record, key: Key) {
    Sweeps(l, t, step) && |HeldBy(l.leases, key)| == 0 && !Ahead(step.now, rec.until)
  }

  /**
   The history of a transfer, told by its own events alone: a failed segment counts; a final success,
   the end of the last segment below the threshold, a query with no open breaker, and a prune clear.
   */
  ghost function NextRecord(l: Ledger, t: Tuning, step: Step, rec: Record, key: Key): Record
    requires Enabled(l, step)
  {
    if Forgets(l, t, step, rec, key) then CLEAR
    else if step.Release? && l.leases[step.id].key == key then AfterSegment(t, step.outcome, step.now, rec, |HeldBy(l.leases, key)| == 1)
    else if step.BreakerQuery? && step.key == key && Past(step.now, rec.until) then CLEAR
    else rec
  }

  function AfterSegment(t: Tuning, outcome: Outcome, now: int, rec: Record, last: bool): Record {
    if outcome.Success? then if last then CLEAR else rec
    else if outcome.severe || rec.failed + 1 >= t.threshold then Record(rec.failed + 1, At(now + t.openFor))
    else if last then CLEAR
    else rec.(failed := rec.failed + 1)
  }

  ghost function RecordAfter(l: Ledger, t: Tuning, steps: seq<Step>, rec: Record, key: Key, l': Ledger): Record
    requires Runs(l, t, steps, l')
    decreases |steps|
  {
    if steps == [] then rec
    else RecordAfter(Next(l, t, steps[0]), t, steps[1..], NextRecord(l, t, steps[0], rec, key), key, l')
  }

  function RecordOf(st: State, key: Key): Record {
    Record(EntryAt(st, key).failures, EntryAt(st, key).breaker)
  }

  /** A breaker is open only after a failure, and only targets have a source constraint. */
  predicate Regular(st: State, key: Key) {
    EntryAt(st, key).constrained.Never? && (EntryAt(st, key).breaker.At? ==> EntryAt(st, key).failures > 0)
  }

  ghost predicate Shows(st: State, key: Key, rec: Record) {
    Regular(st, key) && RecordOf(st, key) == rec
  }

  lemma ShowsUpkeep(st: State, key: Key, rec: Record, now: int, later: int, other: string, k: Key)
    requires Shows(st, key, rec) && Own(key)
    ensures Shows(AfterTargetBreaker(st, other, now, later), key, rec)
    ensures Shows(AfterConstrained(st, other, now), key, rec)
    ensures Shows(DeleteIfIdle(st, k, later), key, rec)
  {
  }

  lemma ShowsPruned(st: State, key: Key, rec: Record, now: int)
    requires Shows(st, key, rec)
    ensures Shows(Pruned(st, now), key, if PruneDue(st, now) && Held(st, key) == 0 && !Before(now, rec.until) then CLEAR else rec)
  {
  }

  lemma ShowsAcquire(st: State, key: Key, rec: Record, k: Key, now: int, later: int)
    requires Shows(Pruned(st, now), key, rec) && Own(key)
    ensures Shows(AfterAcquire(st, k, now, later), key, rec)
  {
    var s := Opened(st, k, now);
    assert Shows(s, key, rec);
    ShowsUpkeep(s, key, rec, now, later, k.target, k);
    ShowsUpkeep(AfterTargetBreaker(s, k.target, now, later), key, rec, now, later, k.target, k);
  }

  lemma ShowsRelease(st: State, t: Tuning, key: Key, rec: Record, k: Key, outcome: Outcome, now: int, later: int)
    requires Shows(Pruned(st, now), key, rec) && Own(key) && (k == key ==> Held(st, key) > 0)
    ensures Shows(AfterRelease(st, t, k, outcome, now, later), key,
                  if k == key then AfterSegment(t, outcome, now, rec, Held(st, key) == 1) else rec)
  {
    PruneKeepsLeases(st, now);
    assert Held(st, key) == Held(Pruned(st, now), key);
    var s := Discounted(Pruned(st, now), k);
    assert Shows(s, key, rec);
    if k in s.entries {
      ShowsOutcome(s, t, key, rec, k, outcome, now, later);
    }
  }

  lemma ShowsOutcome(s: State, t: Tuning, key: Key, rec: Record, k: Key, outcome: Outcome, now: int, later: int)
    requires Shows(s, key, rec) && Own(key) && k in s.entries
    ensures Shows(AfterOutcome(s, t, k, outcome, now, later), key,
                  if k == key then AfterSegment(t, outcome, now, rec, Held(s, key) == 0) else rec)
  {
    ShowsUpkeep(s, key, rec, now, later, k.target, k);
  }

  lemma ShowsQuery(st: State, key: Key, rec: Record, k: Key, now: int, later: int)
    requires Shows(Pruned(st, now), key, rec) && Own(key)
    ensures Shows(AfterQuery(st, k, now, later), key, if k == key && After(now, rec.until) then CLEAR else rec)
  {
    var s := Pruned(st, now);
    ShowsUpkeep(s, key, rec, now, later, k.target, k);
    if k in s.entries && After(now, s.entries[k].breaker) {
      var closed := Put(s, k, s.entries[k].(breaker := Never, failures := 0));
      var rec' := if k == key then CLEAR else rec;
      assert Shows(closed, key, rec');
      ShowsUpkeep(closed, key, rec', now, later, k.target, k);
      ShowsUpkeep(DeleteIfIdle(closed, k, later), key, rec', now, later, k.target, k);
    }
  }

  lemma ShowsResult(st: State, t: Tuning, key: Key, rec: Record, other: string, outcome: Outcome, now: int, later: int)
    requires other != "" && Shows(Pruned(st, now), key, rec) && Own(key)
    ensures Shows(AfterTargetResult(st, t, other, outcome, now, later), key, rec)
  {
  }

  lemma ShowsSource(st: State, t: Tuning, key: Key, rec: Record, other: string, body: int, effective: int, segments: int, now: int)
    requires other != "" && body > 0 && t.watchSource && Shows(Pruned(st, now), key, rec) && Own(key)
    ensures Shows(AfterSourceRead(st, t, other, body, effective, segments, now), key, rec)
  {
  }

  lemma ShowsStep(l: Ledger, t: Tuning, step: Step, key: Key, rec: Record)
    requires Shows(l.control, key, rec) && Own(key) && Enabled(l, step) && Balanced(l.control, l.leases)
    ensures Shows(Next(l, t, step).control, key, NextRecord(l, t, step, rec, key))
  {
    var st := l.control;
    assert Held(st, key) == |HeldBy(l.leases, key)|;
    var pruned := if Forgets(l, t, step, rec, key) then CLEAR else rec;
    if Prunes(t, step) {
      ShowsPruned(st, key, rec, step.now);
      match step {
        case Acquire(_, k, now, later) => ShowsAcquire(st, key, pruned, k, now, later);
        case Release(id, outcome, now, later) =>
          assert l.leases[id].key == key ==> id in HeldBy(l.leases, key);
          ShowsRelease(st, t, key, pruned, l.leases[id].key, outcome, now, later);
        case TargetResult(other, outcome, now, later) => ShowsResult(st, t, key, pruned, other, outcome, now, later);
        case SourceRead(other, body, effective, segments, now) => ShowsSource(st, t, key, pruned, other, body, effective, segments, now);
        case TargetQuery(other, now, later) => ShowsUpkeep(Pruned(st, now), key, pruned, now, later, other, key);
        case ConstraintQuery(other, now) => ShowsUpkeep(Pruned(st, now), key, pruned, now, now, other, key);
        case BreakerQuery(k, now, later) => ShowsQuery(st, key, pruned, k, now, later);
      }
    }
  }

  /** Over every run, what the controller remembers of a transfer is exactly its history. */
  lemma {:induction false} RecordIsExact(l: Ledger, t: Tuning, steps: seq<Step>, l': Ledger, key: Key, rec: Record)
    requires Balanced(l.control, l.leases) && Shows(l.control, key, rec) && Own(key) && Runs(l, t, steps, l')
    ensures Balanced(l'.control, l'.leases) && Shows(l'.control, key, RecordAfter(l, t, steps, rec, key, l'))
    decreases |steps|
  {
    if steps != [] {
      StepBalances(l, t, steps[0]);
      ShowsStep(l, t, steps[0], key, rec);
      RecordIsExact(Next(l, t, steps[0]), t, steps[1..], l', key, NextRecord(l, t, steps[0], rec, key));
    }
  }

  lemma SegmentCounts(l: Ledger, t: Tuning, id: nat, outcome: Outcome, now: int, later: int, key: Key, rec: Record, l': Ledger)
    requires Balanced(l.control, l.leases) && Shows(l.control, key, rec) && Own(key)
    requires id in l.leases && l.leases[id].key == key && l' == Next(l, t, Release(id, outcome, now, later))
    ensures Balanced(l'.control, l'.leases)
    ensures Shows(l'.control, key, AfterSegment(t, outcome, now, rec, |HeldBy(l.leases, key)| == 1))
  {
    assert id in HeldBy(l.leases, key);
    StepBalances(l, t, Release(id, outcome, now, later));
    ShowsStep(l, t, Release(id, outcome, now, later), key, rec);
  }

  /**
   After any run, a failed segment of a transfer opens its breaker exactly when it is severe or, with
   the failed segments that still count, reaches the threshold.
   */
  lemma SegmentTrips(t: Tuning, steps: seq<Step>, l: Ledger, id: nat, outcome: Outcome, now: int, later: int, key: Key, rec: Record,
                     l': Ledger)
    requires Runs(EMPTY, t, steps, l) && id in l.leases && l.leases[id].key == key && Own(key) && outcome.Failure?
    requires rec == RecordAfter(EMPTY, t, steps, CLEAR, key, l) && l' == Next(l, t, Release(id, outcome, now, later))
    ensures var after := RecordOf(l'.control, key);
            if outcome.severe || rec.failed + 1 >= t.threshold then after == Record(rec.failed + 1, At(now + t.openFor))
            else if |HeldBy(l.leases, key)| == 1 then after == CLEAR
            else after == rec.(failed := rec.failed + 1)
  {
    HistoryShows(t, steps, l, key, rec);
    SegmentCounts(l, t, id, outcome, now, later, key, rec, l');
    SegmentCases(t, outcome, now, rec, |HeldBy(l.leases, key)| == 1);
  }

  lemma SegmentCases(t: Tuning, outcome: Outcome, now: int, rec: Record, last: bool)
    requires outcome.Failure?
    ensures AfterSegment(t, outcome, now, rec, last) ==
            if outcome.severe || rec.failed + 1 >= t.threshold then Record(rec.failed + 1, At(now + t.openFor))
            else if last then CLEAR
            else rec.(failed := rec.failed + 1)
  {
  }

  lemma HistoryShows(t: Tuning, steps: seq<Step>, l: Ledger, key: Key, rec: Record)
    requires Runs(EMPTY, t, steps, l) && Own(key) && rec == RecordAfter(EMPTY, t, steps, CLEAR, key, l)
    ensures Balanced(l.control, l.leases) && Shows(l.control, key, rec)
  {
    StartIsBalanced(t);
    RecordIsExact(EMPTY, t, steps, l, key, CLEAR);
  }

  /** No two leases of the transfer overlap and none of them ends in a severe failure. */
  ghost predicate Sequential(l: Ledger, t: Tuning, steps: seq<Step>, key: Key)
    decreases |steps|
  {
    steps == [] ||
    (&& Enabled(l, steps[0])
     && (steps[0].Acquire? && steps[0].key == key ==> key !in Active(l.leases))
     && (steps[0].Release? && l.leases[steps[0].id].key == key ==> steps[0].outcome.Success? || !steps[0].outcome.severe)
     && Sequential(Next(l, t, steps[0]), t, steps[1..], key))
  }

  lemma OneHolder(l: Ledger, t: Tuning, step: Step, key: Key)
    requires Enabled(l, step) && |HeldBy(l.leases, key)| <= 1
    requires step.Acquire? && step.key == key ==> key !in Active(l.leases)
    ensures |HeldBy(Next(l, t, step).leases, key)| <= 1
  {
    var leases := Next(l, t, step).leases;
    match step
    case Acquire(id, k, _, _) =>
      AddedBy(l.leases, id, leases[id], leases, key);
      HoldersAreActive(l.leases, key);
    case Release(id, _, _, _) =>
      assert leases[id := l.leases[id]] == l.leases;
      AddedBy(leases, id, l.leases[id], l.leases, key);
    case _ =>
  }

  lemma {:induction false} SequentialStaysClear(l: Ledger, t: Tuning, steps: seq<Step>, l': Ledger, key: Key)
    requires |HeldBy(l.leases, key)| <= 1 && t.threshold > 1 && Runs(l, t, steps, l') && Sequential(l, t, steps, key)
    ensures RecordAfter(l, t, steps, CLEAR, key, l') == CLEAR
    decreases |steps|
  {
    if steps != [] {
      assert steps[0].Release? && l.leases[steps[0].id].key == key ==> steps[0].id in HeldBy(l.leases, key);
      OneHolder(l, t, steps[0], key);
      SequentialStaysClear(Next(l, t, steps[0]), t, steps[1..], l', key);
    }
  }

  /**
   So a transfer whose segments follow one another never opens its own breaker by ordinary failures,
   however many there are: the count goes away with the last lease.
   */
  lemma SequentialNeverTrips(t: Tuning, steps: seq<Step>, l: Ledger, key: Key)
    requires Own(key) && t.threshold > 1 && Runs(EMPTY, t, steps, l) && Sequential(EMPTY, t, steps, key)
    ensures RecordOf(l.control, key) == CLEAR
  {
    StartIsBalanced(t);
    assert HeldBy(EMPTY.leases, key) == {};
    SequentialStaysClear(EMPTY, t, steps, l, key);
    RecordIsExact(EMPTY, t, steps, l, key, CLEAR);
  }

  lemma Takes(t: Tuning, steps: seq<Step>, l: Ledger, key: Key, id: nat, l': Ledger)
    requires Runs(EMPTY, t, steps, l) && Balanced(l.control, l.leases) && Shows(l.control, key, CLEAR) && Own(key)
    requires id !in l.leases && l' == Next(l, t, Acquire(id, key, 0, 0))
    ensures Runs(EMPTY, t, steps + [Acquire(id, key, 0, 0)], l')
    ensures Balanced(l'.control, l'.leases) && Shows(l'.control, key, CLEAR)
    ensures l'.leases.Keys == l.leases.Keys + {id} && HeldBy(l'.leases, key) == HeldBy(l.leases, key) + {id}
  {
    RunsOn(EMPTY, t, steps, l, Acquire(id, key, 0, 0));
    TakesClear(t, l, key, id, l');
    HoldsMore(l.leases, id, l'.leases[id], l'.leases, key);
  }

  lemma TakesClear(t: Tuning, l: Ledger, key: Key, id: nat, l': Ledger)
    requires Balanced(l.control, l.leases) && Shows(l.control, key, CLEAR) && Own(key)
    requires id !in l.leases && l' == Next(l, t, Acquire(id, key, 0, 0))
    ensures Balanced(l'.control, l'.leases) && Shows(l'.control, key, CLEAR)
  {
    StepBalances(l, t, Acquire(id, key, 0, 0));
    ShowsStep(l, t, Acquire(id, key, 0, 0), key, CLEAR);
  }

  lemma HoldsMore(leases: map<nat, Lease>, id: nat, lease: Lease, more: map<nat, Lease>, key: Key)
    requires id !in leases && more == leases[id := lease] && lease.key == key
    ensures HeldBy(more, key) == HeldBy(leases, key) + {id}
  {
  }

  /** Overlapping segments do open it: two of them, both failing, at a threshold of two. */
  lemma OverlapTrips(t: Tuning, key: Key) returns (steps: seq<Step>, l: Ledger)
    requires t.threshold == 2 && Own(key)
    ensures Runs(EMPTY, t, steps, l) && l.leases.Keys == {}
    ensures RecordOf(l.control, key) == Record(2, At(t.openFor))
  {
    var failed := Failure(false, false);
    StartIsBalanced(t);
    assert Runs(EMPTY, t, [], EMPTY) && HeldBy(EMPTY.leases, key) == {};
    var l1 := Next(EMPTY, t, Acquire(0, key, 0, 0));
    Takes(t, [], EMPTY, key, 0, l1);
    var l2 := Next(l1, t, Acquire(1, key, 0, 0));
    Takes(t, [] + [Acquire(0, key, 0, 0)], l1, key, 1, l2);
    steps := [] + [Acquire(0, key, 0, 0)] + [Acquire(1, key, 0, 0)];
    steps, l := BothFail(t, steps, l2, key, failed);
  }

  lemma Fails(t: Tuning, before: seq<Step>, l: Ledger, key: Key, id: nat, rec: Record, failed: Outcome, l': Ledger)
    requires Runs(EMPTY, t, before, l) && Balanced(l.control, l.leases) && Shows(l.control, key, rec) && Own(key)
    requires id in l.leases && l.leases[id].key == key && l' == Next(l, t, Release(id, failed, 0, 0))
    ensures Runs(EMPTY, t, before + [Release(id, failed, 0, 0)], l') && l'.leases == l.leases - {id}
    ensures Balanced(l'.control, l'.leases) && Shows(l'.control, key, AfterSegment(t, failed, 0, rec, |HeldBy(l.leases, key)| == 1))
  {
    RunsOn(EMPTY, t, before, l, Release(id, failed, 0, 0));
    SegmentCounts(l, t, id, failed, 0, 0, key, rec, l');
  }

  lemma BothFail(t: Tuning, before: seq<Step>, l2: Ledger, key: Key, failed: Outcome) returns (steps: seq<Step>, l: Ledger)
    requires t.threshold == 2 && Own(key) && failed == Failure(false, false)
    requires Runs(EMPTY, t, before, l2) && Balanced(l2.control, l2.leases) && Shows(l2.control, key, CLEAR)
    requires l2.leases.Keys == {0, 1} && HeldBy(l2.leases, key) == {0, 1}
    ensures Runs(EMPTY, t, steps, l) && l.leases.Keys == {}
    ensures RecordOf(l.control, key) == Record(2, At(t.openFor))
  {
    assert 0 in HeldBy(l2.leases, key) && 1 in HeldBy(l2.leases, key);
    var l3 := Next(l2, t, Release(0, failed, 0, 0));
    Fails(t, before, l2, key, 0, CLEAR, failed, l3);
    steps, l := LastFails(t, before + [Release(0, failed, 0, 0)], l3, key, failed);
  }

  lemma LastFails(t: Tuning, before: seq<Step>, l3: Ledger, key: Key, failed: Outcome) returns (steps: seq<Step>, l: Ledger)
    requires t.threshold == 2 && Own(key) && failed == Failure(false, false)
    requires Runs(EMPTY, t, before, l3) && Balanced(l3.control, l3.leases) && Shows(l3.control, key, Record(1, Never))
    requires l3.leases.Keys == {1} && l3.leases[1].key == key
    ensures Runs(EMPTY, t, steps, l) && l.leases.Keys == {}
    ensures RecordOf(l.control, key) == Record(2, At(t.openFor))
  {
    l := Next(l3, t, Release(1, failed, 0, 0));
    Fails(t, before, l3, key, 1, Record(1, Never), failed, l);
    steps := before + [Release(1, failed, 0, 0)];
  }
}
