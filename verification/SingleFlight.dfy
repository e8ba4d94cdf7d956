/**
 The single-flight loader in front of the segment cache, as a protocol: any number of concurrent
 callers, each advancing from one lock region to the next in any interleaving, with lookups, stores
 and limit changes of others in between.
 */
module SingleFlight {
  import Seqs
  import C = SegmentCache
  type Key = C.Key
  type Bytes = C.Bytes

  /** What a loader returned; an error may come with or without data. */
  datatype Loaded = Loaded(data: Bytes, failed: bool)

  datatype Result =
    | FromCache(data: Bytes)
    | Own(loaded: Loaded)                    // this caller ran the loader
    | Shared(flight: nat, loaded: Loaded)    // this caller waited for another one's load
    | Cancelled

  datatype Phase =
    | Starting
    | Missed
    | Loading(flight: nat)                     // registered, the loader is running
    | Storing(flight: nat, loaded: Loaded)     // the loader returned
    | Finishing(flight: nat, loaded: Loaded)   // the result was stored, or was not worth storing
    | Waiting(flight: nat)
    | Done(result: Result)

  datatype Caller = Caller(key: Key, ttl: int, phase: Phase)

  datatype Flight = Flight(key: Key, leader: nat, ready: bool, loaded: Loaded)

  datatype System = System(callers: map<nat, Caller>, cache: C.State, flights: map<Key, nat>,
                           table: map<nat, Flight>)

  const INITIAL := System(map[], C.EMPTY, map[], map[])

  datatype Step =
    | Call(p: nat, key: Key, ttl: int)
    | LookUp(p: nat, now: int)
    | Join(p: nat, id: nat)
    | LoaderReturns(p: nat, loaded: Loaded)
    | Keep(p: nat, now: int)
    | Finish(p: nat)
    | Wake(p: nat)
    | Cancel(p: nat)
    | Other(op: C.Op)    // a direct get, store or limit change

  predicate At(s: System, p: nat) {
    p in s.callers
  }

  predicate Enabled(s: System, step: Step) {
    match step
    case Call(p, _, _) => p !in s.callers
    case LookUp(p, _) => At(s, p) && s.callers[p].phase.Starting?
    case Join(p, id) => At(s, p) && s.callers[p].phase.Missed? && id !in s.table
    case LoaderReturns(p, _) => At(s, p) && s.callers[p].phase.Loading?
    case Keep(p, _) => At(s, p) && s.callers[p].phase.Storing?
    case Finish(p) => At(s, p) && s.callers[p].phase.Finishing? && s.callers[p].phase.flight in s.table
    case Wake(p) =>
      && At(s, p) && s.callers[p].phase.Waiting?
      && s.callers[p].phase.flight in s.table && s.table[s.callers[p].phase.flight].ready
    case Cancel(p) => At(s, p) && s.callers[p].phase.Waiting?
    case Other(_) => true
  }

  function Moved(s: System, p: nat, phase: Phase): System
    requires At(s, p)
  {
    s.(callers := s.callers[p := s.callers[p].(phase := phase)])
  }

  function AfterLookUp(s: System, p: nat, now: int): System
    requires At(s, p)
  {
    var key := s.callers[p].key;
    var r := C.GetResult(s.cache, key, now);
    Moved(s, p, if r.Hit? then Done(FromCache(r.data)) else Missed).(cache := C.AfterGet(s.cache, key, now))
  }

  /** Under the lock: wait for the flight that is there, or register a new one. */
  function AfterJoin(s: System, p: nat, id: nat): System
    requires At(s, p)
  {
    var key := s.callers[p].key;
    if key in s.flights then Moved(s, p, Waiting(s.flights[key]))
    else
      Moved(s, p, Loading(id)).(flights := s.flights[key := id],
                                table := s.table[id := Flight(key, p, false, Loaded([], false))])
  }

  function AfterLoader(s: System, p: nat, loaded: Loaded): System
    requires At(s, p) && s.callers[p].phase.Loading?
  {
    Moved(s, p, Storing(s.callers[p].phase.flight, loaded))
  }

  function AfterKeep(s: System, p: nat, now: int): System
    requires At(s, p) && s.callers[p].phase.Storing?
  {
    var c := s.callers[p];
    var loaded := c.phase.loaded;
    var cache := if !loaded.failed && loaded.data != [] then C.AfterStore(s.cache, c.key, loaded.data, c.ttl, now) else s.cache;
    Moved(s, p, Finishing(c.phase.flight, loaded)).(cache := cache)
  }

  /** Under the lock: publish the result, wake the waiters, forget the flight. */
  function AfterFinish(s: System, p: nat): System
    requires At(s, p) && s.callers[p].phase.Finishing? && s.callers[p].phase.flight in s.table
  {
    var c := s.callers[p];
    var f := c.phase.flight;
    Moved(s, p, Done(Own(c.phase.loaded))).(flights := s.flights - {c.key},
                                            table := s.table[f := s.table[f].(ready := true, loaded := c.phase.loaded)])
  }

  function AfterWake(s: System, p: nat): System
    requires At(s, p) && s.callers[p].phase.Waiting? && s.callers[p].phase.flight in s.table
  {
    var f := s.callers[p].phase.flight;
    Moved(s, p, Done(Shared(f, s.table[f].loaded)))
  }

  function AfterOther(s: System, op: C.Op): System {
    s.(cache := C.Apply(s.cache, op))
  }

  function Next(s: System, step: Step): System
    requires Enabled(s, step)
  {
    match step
    case Call(p, key, ttl) => s.(callers := s.callers[p := Caller(key, ttl, Starting)])
    case LookUp(p, now) => AfterLookUp(s, p, now)
    case Join(p, id) => AfterJoin(s, p, id)
    case LoaderReturns(p, loaded) => AfterLoader(s, p, loaded)
    case Keep(p, now) => AfterKeep(s, p, now)
    case Finish(p) => AfterFinish(s, p)
    case Wake(p) => AfterWake(s, p)
    case Cancel(p) => Moved(s, p, Done(Cancelled))
    case Other(op) => AfterOther(s, op)
  }

  /** The steps lead from `s` to `s'`. */
  ghost predicate Runs(s: System, steps: seq<Step>, s': System)
    decreases |steps|
  {
    if steps == [] then s == s'
    else Enabled(s, steps[0]) && Runs(Next(s, steps[0]), steps[1..], s')
  }

  // ---------- The invariant ----------

  /** The caller is between registering a flight and completing it. */
  predicate Leading(phase: Phase) {
    phase.Loading? || phase.Storing? || phase.Finishing?
  }

  predicate Leads(c: Caller, f: nat) {
    Leading(c.phase) && c.phase.flight == f
  }

  ghost predicate Leaders(s: System) {
    forall p :: p in s.callers && Leading(s.callers[p].phase) ==>
                  && s.callers[p].key in s.flights && s.flights[s.callers[p].key] == s.callers[p].phase.flight
                  && s.callers[p].phase.flight in s.table && s.table[s.callers[p].phase.flight].leader == p
  }

  ghost predicate Flights(s: System) {
    forall k :: k in s.flights ==>
                  && s.flights[k] in s.table
                  && var flight := s.table[s.flights[k]];
                     && flight.key == k && !flight.ready
                     && flight.leader in s.callers && s.callers[flight.leader].key == k
                     && Leads(s.callers[flight.leader], s.flights[k])
  }

  /** A completed flight holds exactly what its leader returned. */
  ghost predicate Completed(s: System) {
    forall f :: f in s.table && s.table[f].ready ==>
                  && s.table[f].leader in s.callers
                  && s.callers[s.table[f].leader].phase == Done(Own(s.table[f].loaded))
                  && s.callers[s.table[f].leader].key == s.table[f].key
  }

  /** Every flight is either registered or completed. */
  ghost predicate NoneLost(s: System) {
    forall f :: f in s.table && !s.table[f].ready ==> s.table[f].key in s.flights && s.flights[s.table[f].key] == f
  }

  ghost predicate Waiters(s: System) {
    forall p :: p in s.callers ==>
                  && (s.callers[p].phase.Waiting? ==>
                        s.callers[p].phase.flight in s.table && s.table[s.callers[p].phase.flight].key == s.callers[p].key)
                  && (s.callers[p].phase.Done? && s.callers[p].phase.result.Shared? ==>
                        var r := s.callers[p].phase.result;
                        && r.flight in s.table && s.table[r.flight].ready
                        && s.table[r.flight].loaded == r.loaded && s.table[r.flight].key == s.callers[p].key)
  }

  /** The part of the invariant about callers and flights. */
  ghost predicate Control(s: System) {
    Leaders(s) && Flights(s) && Completed(s) && NoneLost(s) && Waiters(s)
  }

  /** What came in for a key: from a loader, or by a direct store. */
  datatype Supply = Load(key: Key, loaded: Loaded) | Direct(key: Key, data: Bytes)

  function SuppliedBy(s: System, step: Step): set<Supply>
    requires Enabled(s, step)
  {
    match step
    case LoaderReturns(p, loaded) => {Load(s.callers[p].key, loaded)}
    case Other(Store(key, data, _, _)) => {Direct(key, data)}
    case _ => {}
  }

  /** Everything that came in during a run. */
  ghost function Supplied(s: System, steps: seq<Step>, s': System): set<Supply>
    requires Runs(s, steps, s')
    decreases |steps|
  {
    if steps == [] then {} else SuppliedBy(s, steps[0]) + Supplied(Next(s, steps[0]), steps[1..], s')
  }

  /** The data came from a load without error or from a direct store. */
  predicate Worthy(key: Key, data: Bytes, supplies: set<Supply>) {
    Load(key, Loaded(data, false)) in supplies || Direct(key, data) in supplies
  }

  /** What a caller holds or has returned came in for its key. */
  predicate Vouched(c: Caller, supplies: set<Supply>) {
    match c.phase
    case Storing(_, loaded) => Load(c.key, loaded) in supplies
    case Finishing(_, loaded) => Load(c.key, loaded) in supplies
    case Done(FromCache(data)) => Worthy(c.key, data, supplies)
    case Done(Own(loaded)) => Load(c.key, loaded) in supplies
    case Done(Shared(_, loaded)) => Load(c.key, loaded) in supplies
    case _ => true
  }

  ghost predicate Genuine(s: System, supplies: set<Supply>) {
    && (forall x :: x in s.cache.list ==> Worthy(x.key, x.data, supplies))
    && (forall p :: p in s.callers ==> Vouched(s.callers[p], supplies))
  }

  ghost predicate Inv(s: System, supplies: set<Supply>) {
    Control(s) && Genuine(s, supplies)
  }

  // ---------- Every step keeps it ----------

  lemma CacheAddsNothing(st: C.State, op: C.Op)
    ensures forall x :: x in C.Apply(st, op).list ==>
                          x in st.list || (op.Store? && x.key == op.key && x.data == op.data)
  {
    match op
    case Get(key, now) => C.DropFacts(st.list, {key});
    case Store(key, data, ttl, now) => StoreAddsOne(st, key, data, ttl, now);
    case SetLimit(limit, now) => PruneAddsNothing(st.(limit := limit), now);
  }

  lemma StoreAddsOne(st: C.State, key: Key, data: Bytes, ttl: int, now: int)
    ensures forall x :: x in C.AfterStore(st, key, data, ttl, now).list ==> x in st.list || (x.key == key && x.data == data)
  {
    C.DropFacts(st.list, {key});
    PruneAddsNothing(st.(list := [C.Item(key, data, now + ttl)] + C.Drop(st.list, {key})), now);
  }

  lemma PruneAddsNothing(st: C.State, now: int)
    ensures forall x :: x in C.Pruned(st, now).list ==> x in st.list
  {
    C.UnexpiredFacts(st.list, now);
    C.PruneIsExact(st, now);
  }

  /** A caller moves on without touching any flight. */
  ghost predicate MovesAlone(s: System, s': System, p: nat, c: Caller) {
    && s'.flights == s.flights && s'.table == s.table && s'.callers == s.callers[p := c]
    && (p in s.callers ==>
          && c.key == s.callers[p].key
          && (Leading(c.phase) <==> Leading(s.callers[p].phase))
          && (Leading(c.phase) ==> c.phase.flight == s.callers[p].phase.flight)
          && !s.callers[p].phase.Done?)
    && (p !in s.callers ==> c.phase.Starting?)
    && (c.phase.Waiting? ==> p in s.callers && s.callers[p].phase == c.phase)
    && (c.phase.Done? && c.phase.result.Shared? ==>
          && p in s.callers && s.callers[p].phase == Waiting(c.phase.result.flight)
          && c.phase.result.flight in s.table
          && s.table[c.phase.result.flight].ready && s.table[c.phase.result.flight].loaded == c.phase.result.loaded)
  }

  lemma MoveKeepsFlights(s: System, s': System, p: nat, c: Caller)
    requires Control(s) && MovesAlone(s, s', p, c)
    ensures Flights(s')
  {
  }

  lemma MoveKeepsLeaders(s: System, s': System, p: nat, c: Caller)
    requires Control(s) && MovesAlone(s, s', p, c)
    ensures Leaders(s')
  {
  }

  lemma MoveKeepsRest(s: System, s': System, p: nat, c: Caller)
    requires Control(s) && MovesAlone(s, s', p, c)
    ensures Completed(s') && NoneLost(s') && Waiters(s')
  {
  }

  ghost predicate MayJoin(s: System, p: nat, id: nat) {
    At(s, p) && s.callers[p].phase.Missed? && id !in s.table
  }

  lemma JoinKeepsLeaders(s: System, p: nat, id: nat, s': System)
    requires Control(s) && MayJoin(s, p, id) && s' == AfterJoin(s, p, id)
    ensures Leaders(s')
  {
  }

  lemma JoinKeepsFlights(s: System, p: nat, id: nat, s': System)
    requires Control(s) && MayJoin(s, p, id) && s' == AfterJoin(s, p, id)
    ensures Flights(s')
  {
  }

  lemma JoinKeepsCompleted(s: System, p: nat, id: nat, s': System)
    requires Control(s) && MayJoin(s, p, id) && s' == AfterJoin(s, p, id)
    ensures Completed(s') && NoneLost(s')
  {
  }

  lemma JoinKeepsWaiters(s: System, p: nat, id: nat, s': System)
    requires Control(s) && MayJoin(s, p, id) && s' == AfterJoin(s, p, id)
    ensures Waiters(s')
  {
  }

  ghost predicate MayFinish(s: System, p: nat) {
    At(s, p) && s.callers[p].phase.Finishing? && s.callers[p].phase.flight in s.table
  }

  lemma FinishKeepsLeaders(s: System, p: nat, s': System)
    requires Control(s) && MayFinish(s, p) && s' == AfterFinish(s, p)
    ensures Leaders(s')
  {
  }

  lemma FinishKeepsFlights(s: System, p: nat, s': System)
    requires Control(s) && MayFinish(s, p) && s' == AfterFinish(s, p)
    ensures Flights(s')
  {
  }

  lemma FinishKeepsCompleted(s: System, p: nat, s': System)
    requires Control(s) && MayFinish(s, p) && s' == AfterFinish(s, p)
    ensures Completed(s') && NoneLost(s')
  {
  }

  lemma FinishKeepsWaiters(s: System, p: nat, s': System)
    requires Control(s) && MayFinish(s, p) && s' == AfterFinish(s, p)
    ensures Waiters(s')
  {
  }

  lemma ControlKept(s: System, step: Step)
    requires Control(s) && Enabled(s, step)
    ensures Control(Next(s, step))
  {
    var s' := Next(s, step);
    match step
    case Join(p, id) =>
      JoinKeepsLeaders(s, p, id, s');
      JoinKeepsFlights(s, p, id, s');
      JoinKeepsCompleted(s, p, id, s');
      JoinKeepsWaiters(s, p, id, s');
    case Finish(p) =>
      FinishKeepsLeaders(s, p, s');
      FinishKeepsFlights(s, p, s');
      FinishKeepsCompleted(s, p, s');
      FinishKeepsWaiters(s, p, s');
    case Other(_) =>
      SameControl(s, s');
    case _ =>
      StepMovesAlone(s, step);
      MoveKeepsLeaders(s, s', step.p, s'.callers[step.p]);
      MoveKeepsFlights(s, s', step.p, s'.callers[step.p]);
      MoveKeepsRest(s, s', step.p, s'.callers[step.p]);
  }

  lemma SameControl(s: System, s': System)
    requires Control(s) && s'.callers == s.callers && s'.flights == s.flights && s'.table == s.table
    ensures Control(s')
  {
  }

  lemma StepMovesAlone(s: System, step: Step)
    requires Control(s) && Enabled(s, step) && !step.Join? && !step.Finish? && !step.Other?
    ensures step.p in Next(s, step).callers && MovesAlone(s, Next(s, step), step.p, Next(s, step).callers[step.p])
  {
  }

  lemma LookUpGenuine(s: System, p: nat, now: int, supplies: set<Supply>)
    requires Genuine(s, supplies) && At(s, p)
    ensures Genuine(AfterLookUp(s, p, now), supplies)
  {
    CacheAddsNothing(s.cache, C.Get(s.callers[p].key, now));
  }

  lemma KeepGenuine(s: System, p: nat, now: int, supplies: set<Supply>)
    requires Genuine(s, supplies) && At(s, p) && s.callers[p].phase.Storing?
    ensures Genuine(AfterKeep(s, p, now), supplies)
  {
    var c := s.callers[p];
    assert Vouched(c, supplies);
    CacheAddsNothing(s.cache, C.Store(c.key, c.phase.loaded.data, c.ttl, now));
  }

  lemma OtherGenuine(s: System, op: C.Op, supplies: set<Supply>)
    requires Genuine(s, supplies) && (op.Store? ==> Direct(op.key, op.data) in supplies)
    ensures Genuine(AfterOther(s, op), supplies)
  {
    CacheAddsNothing(s.cache, op);
  }

  lemma GenuineMore(s: System, a: set<Supply>, b: set<Supply>)
    requires Genuine(s, a) && a <= b
    ensures Genuine(s, b)
  {
    forall p | p in s.callers
      ensures Vouched(s.callers[p], b)
    {
      VouchedMore(s.callers[p], a, b);
    }
  }

  lemma VouchedMore(c: Caller, a: set<Supply>, b: set<Supply>)
    requires Vouched(c, a) && a <= b
    ensures Vouched(c, b)
  {
  }

  lemma LoaderGenuine(s: System, p: nat, loaded: Loaded, supplies: set<Supply>)
    requires Genuine(s, supplies) && At(s, p) && s.callers[p].phase.Loading? && Load(s.callers[p].key, loaded) in supplies
    ensures Genuine(AfterLoader(s, p, loaded), supplies)
  {
  }

  lemma WakeGenuine(s: System, p: nat, supplies: set<Supply>)
    requires Inv(s, supplies) && At(s, p) && s.callers[p].phase.Waiting?
    requires s.callers[p].phase.flight in s.table && s.table[s.callers[p].phase.flight].ready
    ensures Genuine(AfterWake(s, p), supplies)
  {
    var flight := s.table[s.callers[p].phase.flight];
    assert Vouched(s.callers[flight.leader], supplies);
  }

  lemma FinishGenuine(s: System, p: nat, supplies: set<Supply>)
    requires Genuine(s, supplies) && MayFinish(s, p)
    ensures Genuine(AfterFinish(s, p), supplies)
  {
    assert Vouched(s.callers[p], supplies);
  }

  lemma GenuineKept(s: System, step: Step, supplies: set<Supply>, more: set<Supply>)
    requires Inv(s, supplies) && Enabled(s, step) && more == supplies + SuppliedBy(s, step)
    ensures Genuine(Next(s, step), more)
  {
    GenuineMore(s, supplies, more);
    match step
    case LookUp(p, now) => LookUpGenuine(s, p, now, more);
    case Keep(p, now) => KeepGenuine(s, p, now, more);
    case Other(op) => OtherGenuine(s, op, more);
    case LoaderReturns(p, loaded) => LoaderGenuine(s, p, loaded, more);
    case Wake(p) => WakeGenuine(s, p, more);
    case Finish(p) => FinishGenuine(s, p, more);
    case Join(p, id) => JoinGenuine(s, p, id, more);
    case _ => EmptyHandedGenuine(s, step, more);
  }

  lemma JoinGenuine(s: System, p: nat, id: nat, supplies: set<Supply>)
    requires Genuine(s, supplies) && At(s, p)
    ensures Genuine(AfterJoin(s, p, id), supplies)
  {
  }

  /** A call or a cancellation brings no data. */
  lemma EmptyHandedGenuine(s: System, step: Step, supplies: set<Supply>)
    requires Genuine(s, supplies) && Enabled(s, step) && (step.Call? || step.Cancel?)
    ensures Genuine(Next(s, step), supplies)
  {
  }

  /** Every reachable state, under every interleaving, satisfies the invariant. */
  lemma {:induction false} RunKeeps(s: System, steps: seq<Step>, s': System, supplies: set<Supply>)
    requires Inv(s, supplies) && Runs(s, steps, s')
    ensures Inv(s', supplies + Supplied(s, steps, s'))
    decreases |steps|
  {
    if steps == [] {
      assert supplies + {} == supplies;
    } else {
      var more, next := supplies + SuppliedBy(s, steps[0]), Next(s, steps[0]);
      ControlKept(s, steps[0]);
      GenuineKept(s, steps[0], supplies, more);
      RunKeeps(next, steps[1..], s', more);
      assert more + Supplied(next, steps[1..], s') == supplies + Supplied(s, steps, s');
    }
  }

  lemma Reached(steps: seq<Step>, s: System)
    requires Runs(INITIAL, steps, s)
    ensures Inv(s, Supplied(INITIAL, steps, s))
  {
    RunKeeps(INITIAL, steps, s, {});
    assert {} + Supplied(INITIAL, steps, s) == Supplied(INITIAL, steps, s);
  }

  // ---------- What it means ----------

  /** At most one loader runs per key. */
  lemma OneLoaderPerKey(steps: seq<Step>, s: System, p: nat, q: nat)
    requires Runs(INITIAL, steps, s)
    requires p in s.callers && q in s.callers && s.callers[p].key == s.callers[q].key
    requires s.callers[p].phase.Loading? && s.callers[q].phase.Loading?
    ensures p == q
  {
    Reached(steps, s);
  }

  /** The flights map holds exactly the loads that have begun and not been completed. */
  lemma FlightsAreUnfinishedLoads(steps: seq<Step>, s: System, key: Key, f: nat)
    requires Runs(INITIAL, steps, s)
    ensures key in s.flights && s.flights[key] == f <==> exists p :: p in s.callers && s.callers[p].key == key && Leads(s.callers[p], f)
    ensures key in s.flights && s.flights[key] == f <==> f in s.table && s.table[f].key == key && !s.table[f].ready
  {
    Reached(steps, s);
    if key in s.flights && s.flights[key] == f {
      var q := s.table[f].leader;
      assert q in s.callers && s.callers[q].key == key && Leads(s.callers[q], f);
    }
  }

  /** A caller that waited and was not cancelled returns exactly what the leader of the flight it joined returned. */
  lemma WaiterSharesLeadersResult(steps: seq<Step>, s: System, p: nat)
    requires Runs(INITIAL, steps, s)
    requires p in s.callers && s.callers[p].phase.Done? && s.callers[p].phase.result.Shared?
    ensures var r := s.callers[p].phase.result;
            r.flight in s.table &&
            var q := s.table[r.flight].leader;
            q in s.callers && s.callers[q].key == s.callers[p].key && s.callers[q].phase == Done(Own(r.loaded))
  {
    Reached(steps, s);
    var flight := s.table[s.callers[p].phase.result.flight];
    var q := flight.leader;
    assert q in s.callers && s.callers[q].key == s.callers[p].key && s.callers[q].phase == Done(Own(flight.loaded));
  }

  /**
   Whatever a caller returns for a key came in for that key during the run: from the cache, data of a
   load without error or of a direct store; otherwise what a loader returned, error included.
   */
  lemma DataBelongsToKey(steps: seq<Step>, s: System, p: nat)
    requires Runs(INITIAL, steps, s) && p in s.callers && s.callers[p].phase.Done?
    ensures var key, result, supplies := s.callers[p].key, s.callers[p].phase.result, Supplied(INITIAL, steps, s);
            match result
            case FromCache(data) => Load(key, Loaded(data, false)) in supplies || Direct(key, data) in supplies
            case Own(loaded) => Load(key, loaded) in supplies
            case Shared(_, loaded) => Load(key, loaded) in supplies
            case Cancelled => true
  {
    Reached(steps, s);
    assert Vouched(s.callers[p], Supplied(INITIAL, steps, s));
  }

  // ---------- What is cached ----------

  /** A load without error of at most half the budget is what the next caller for the key finds. */
  lemma LoadIsCached(s: System, p: nat, q: nat, data: Bytes, now: int)
    requires At(s, p) && s.callers[p].phase.Loading? && s.callers[p].ttl >= 0 && data != [] && 2 * |data| <= s.cache.limit
    requires At(s, q) && s.callers[q].phase.Starting? && s.callers[q].key == s.callers[p].key
    ensures var loaded := Next(s, LoaderReturns(p, Loaded(data, false)));
            Next(Next(loaded, Keep(p, now)), LookUp(q, now)).callers[q].phase == Done(FromCache(data))
  {
    C.StoreIsKept(s.cache, s.callers[p].key, data, s.callers[p].ttl, now);
  }

  /** A failed or empty load, or one over half the budget, leaves the cache as it was. */
  lemma LoadIsNotCached(s: System, p: nat, loaded: Loaded, now: int)
    requires At(s, p) && s.callers[p].phase.Loading? && (loaded.failed || loaded.data == [] || 2 * |loaded.data| > s.cache.limit)
    ensures Next(Next(s, LoaderReturns(p, loaded)), Keep(p, now)).cache == s.cache
  {
    if 2 * |loaded.data| > s.cache.limit {
      C.StoreIsRefused(s.cache, s.callers[p].key, loaded.data, s.callers[p].ttl, now);
    }
  }

  /** The cache operations of a step: the lookup of a caller, the store of a load without error, or that of someone else. */
  function OpsBy(s: System, step: Step): seq<C.Op>
    requires Enabled(s, step)
  {
    match step
    case LookUp(p, now) => [C.Get(s.callers[p].key, now)]
    case Keep(p, now) =>
      var c := s.callers[p];
      if c.phase.loaded.failed then [] else [C.Store(c.key, c.phase.loaded.data, c.ttl, now)]
    case Other(op) => [op]
    case _ => []
  }

  ghost function OpsOf(s: System, steps: seq<Step>, s': System): seq<C.Op>
    requires Runs(s, steps, s')
    decreases |steps|
  {
    if steps == [] then [] else OpsBy(s, steps[0]) + OpsOf(Next(s, steps[0]), steps[1..], s')
  }

  lemma OpNext(ops: seq<C.Op>, op: C.Op)
    ensures C.Run(ops + [op]) == C.Apply(C.Run(ops), op)
  {
    assert (ops + [op])[..|ops|] == ops;
  }

  lemma StepFollows(s: System, step: Step, before: seq<C.Op>)
    requires Enabled(s, step) && s.cache == C.Run(before)
    ensures Next(s, step).cache == C.Run(before + OpsBy(s, step))
  {
    var ops := OpsBy(s, step);
    if ops == [] {
      assert before + ops == before;
    } else {
      OpNext(before, ops[0]);
      assert ops == [ops[0]];
      if step.Keep? && s.callers[step.p].phase.loaded.data == [] {
        C.StoreIsRefused(s.cache, ops[0].key, [], ops[0].ttl, step.now);
      }
    }
  }

  /** Under every interleaving the cache is the one that these operations leave, so all that holds of the cache over runs holds here. */
  lemma {:induction false} CacheFollows(s: System, steps: seq<Step>, s': System, before: seq<C.Op>)
    requires Runs(s, steps, s') && s.cache == C.Run(before)
    ensures s'.cache == C.Run(before + OpsOf(s, steps, s'))
    decreases |steps|
  {
    if steps == [] {
      assert before + [] == before;
    } else {
      var next, here := Next(s, steps[0]), OpsBy(s, steps[0]);
      StepFollows(s, steps[0], before);
      CacheFollows(next, steps[1..], s', before + here);
      Seqs.AppendAssoc(before, here, OpsOf(next, steps[1..], s'));
    }
  }

  /** So what a caller finds in the cache is the last store of its key that was not empty and took at most half the limit, unexpired. */
  lemma FoundIsLastStored(steps: seq<Step>, s: System, p: nat, now: int)
    requires Runs(INITIAL, steps, s) && Enabled(s, LookUp(p, now)) && Next(s, LookUp(p, now)).callers[p].phase.Done?
    ensures var last := C.LastStored(OpsOf(INITIAL, steps, s), s.callers[p].key);
            && |last| == 1 && now <= last[0].expiresAt
            && Next(s, LookUp(p, now)).callers[p].phase == Done(FromCache(last[0].data))
  {
    CacheFollows(INITIAL, steps, s, []);
    assert [] + OpsOf(INITIAL, steps, s) == OpsOf(INITIAL, steps, s);
    C.HitIsLastStored(OpsOf(INITIAL, steps, s), s.callers[p].key, now);
  }

  /** As long as some caller has not returned, some caller can move: no one waits for a flight that nobody will complete. */
  lemma NobodyIsStuck(steps: seq<Step>, s: System, p: nat)
    requires Runs(INITIAL, steps, s)
    requires p in s.callers && !s.callers[p].phase.Done?
    ensures exists step :: Enabled(s, step) && !step.Other? && !step.Call? && !step.Cancel?
  {
    Reached(steps, s);
    var c := s.callers[p];
    if c.phase.Waiting? && !s.table[c.phase.flight].ready {
      var q := s.table[c.phase.flight].leader;
      assert s.callers[q].key == c.key && Leads(s.callers[q], c.phase.flight);
      CanMove(s, q);
    } else {
      CanMove(s, p);
    }
  }

  lemma CanMove(s: System, p: nat)
    requires Control(s) && p in s.callers && !s.callers[p].phase.Done?
    requires s.callers[p].phase.Waiting? ==> s.table[s.callers[p].phase.flight].ready
    ensures exists step :: Enabled(s, step) && !step.Other? && !step.Call? && !step.Cancel?
  {
    match s.callers[p].phase
    case Starting => assert Enabled(s, LookUp(p, 0));
    case Missed =>
      var id := FreshId(s.table.Keys);
      assert Enabled(s, Join(p, id));
    case Loading(_) => assert Enabled(s, LoaderReturns(p, Loaded([], true)));
    case Storing(_, _) => assert Enabled(s, Keep(p, 0));
    case Finishing(f, _) =>
      assert Leads(s.callers[p], f);
      assert Enabled(s, Finish(p));
    case Waiting(_) => assert Enabled(s, Wake(p));
  }

  lemma {:induction false} FreshId(ids: set<nat>) returns (id: nat)
    ensures id !in ids && forall x :: x in ids ==> x < id
    decreases ids
  {
    if ids == {} {
      id := 0;
    } else {
      var x :| x in ids;
      var rest := ids - {x};
      id := FreshId(rest);
      assert ids == rest + {x};
      if id <= x {
        id := x + 1;
      }
    }
  }

  /** How far a caller still has to go; every step of a caller brings it closer to returning. */
  function Remaining(phase: Phase): nat {
    match phase
    case Starting => 5
    case Missed => 4
    case Loading(_) => 3
    case Storing(_, _) => 2
    case Finishing(_, _) => 1
    case Waiting(_) => 1
    case Done(_) => 0
  }

  lemma StepsAreBounded(s: System, step: Step)
    requires Enabled(s, step) && !step.Other? && !step.Call?
    ensures At(s, step.p) && Remaining(Next(s, step).callers[step.p].phase) < Remaining(s.callers[step.p].phase)
    ensures forall q :: q in s.callers && q != step.p ==> Next(s, step).callers[q] == s.callers[q]
  {
    assert At(s, step.p);
  }

  // ---------- A run in which a load is shared ----------

  lemma {:induction false} RunsOn(s: System, steps: seq<Step>, s': System, step: Step)
    requires Runs(s, steps, s') && Enabled(s', step)
    ensures Runs(s, steps + [step], Next(s', step))
    decreases |steps|
  {
    if steps == [] {
      assert [step][1..] == [];
      assert Runs(Next(s, step), [], Next(s, step));
      assert steps + [step] == [step];
    } else {
      RunsOn(Next(s, steps[0]), steps[1..], s', step);
      assert (steps + [step])[1..] == steps[1..] + [step];
    }
  }

  lemma MissesAtFirst(s: System, p: nat, key: Key)
    requires At(s, p) && s.callers[p].key == key && s.cache == C.EMPTY
    ensures AfterLookUp(s, p, 0) == Moved(s, p, Missed)
  {
  }

  /** Two callers ask for a key, one of them loads, both return what it loaded. */
  lemma SharingHappens(key: Key, loaded: Loaded) returns (steps: seq<Step>, s: System)
    ensures Runs(INITIAL, steps, s) && s.callers.Keys == {0, 1}
    ensures s.callers[0].phase == Done(Own(loaded)) && s.callers[1].phase == Done(Shared(0, loaded))
  {
    steps, s := BothMiss(key);
    RunsOn(INITIAL, steps, s, Join(0, 0));
    steps, s := steps + [Join(0, 0)], Next(s, Join(0, 0));
    RunsOn(INITIAL, steps, s, Join(1, 1));
    steps, s := steps + [Join(1, 1)], Next(s, Join(1, 1));
    RunsOn(INITIAL, steps, s, LoaderReturns(0, loaded));
    steps, s := steps + [LoaderReturns(0, loaded)], Next(s, LoaderReturns(0, loaded));
    RunsOn(INITIAL, steps, s, Keep(0, 0));
    steps, s := steps + [Keep(0, 0)], Next(s, Keep(0, 0));
    RunsOn(INITIAL, steps, s, Finish(0));
    steps, s := steps + [Finish(0)], Next(s, Finish(0));
    RunsOn(INITIAL, steps, s, Wake(1));
    steps, s := steps + [Wake(1)], Next(s, Wake(1));
  }

  lemma BothMiss(key: Key) returns (steps: seq<Step>, s: System)
    ensures Runs(INITIAL, steps, s) && s.callers == map[0 := Caller(key, 0, Missed), 1 := Caller(key, 0, Missed)]
    ensures s.cache == C.EMPTY && s.flights == map[] && s.table == map[]
  {
    steps, s := [], INITIAL;
    RunsOn(INITIAL, steps, s, Call(0, key, 0));
    steps, s := steps + [Call(0, key, 0)], Next(s, Call(0, key, 0));
    RunsOn(INITIAL, steps, s, Call(1, key, 0));
    steps, s := steps + [Call(1, key, 0)], Next(s, Call(1, key, 0));
    MissesAtFirst(s, 0, key);
    RunsOn(INITIAL, steps, s, LookUp(0, 0));
    steps, s := steps + [LookUp(0, 0)], Next(s, LookUp(0, 0));
    MissesAtFirst(s, 1, key);
    RunsOn(INITIAL, steps, s, LookUp(1, 0));
    steps, s := steps + [LookUp(1, 0)], Next(s, LookUp(1, 0));
  }
}
