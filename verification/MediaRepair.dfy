/**
 The receiver with parity: data and parity packets arrive in any order, some not at all; lost packets
 are rebuilt from their parity runs, and everything goes through the reorder buffer.
 */
module MediaRepair {
  import opened Bytes
  import opened Seqs
  import opened Reorder
  import opened Fec
  import opened ParityRuns

  // ---------- What comes in ----------

  datatype Event = Data(i: nat) | Parity(r: nat)

  predicate Proper(c: Cast, e: Event) {
    if e.Data? then e.i < |c.sent| else e.r < |c.runs|
  }

  ghost predicate AllProper(c: Cast, events: seq<Event>) {
    forall k :: 0 <= k < |events| ==> Proper(c, events[k])
  }

  function After(log: Log, e: Event): Log {
    if e.Data? then WithData(log, e.i) else WithParity(log, e.r)
  }

  /** What has come in after these events. */
  function LogAfter(log: Log, events: seq<Event>): Log {
    var data, parity := set e | e in events && e.Data? :: e.i, set e | e in events && e.Parity? :: e.r;
    Log(log.arrived + data, log.counted + data, log.seen + parity)
  }

  lemma LogNext(log: Log, events: seq<Event>, k: nat)
    requires k < |events|
    ensures LogAfter(log, events[..k + 1]) == After(LogAfter(log, events[..k]), events[k])
  {
    assert events[..k + 1] == events[..k] + [events[k]];
  }

  lemma LogNone(log: Log)
    ensures LogAfter(log, []) == log
  {
  }

  lemma LogIsSane(c: Cast, log: Log, events: seq<Event>)
    requires Sane(c, log) && AllProper(c, events)
    ensures Sane(c, LogAfter(log, events)) && NoLess(log, LogAfter(log, events))
  {
  }

  /**
   The first data packet is in. Before the buffer has started it expects number 0, and the tracker
   forgets a first packet whose number lies too far behind that.
   */
  function Started(c: Cast, limit: int): Log
    requires 0 < |c.sent|
  {
    Log({0}, if TooOld(c.sent[0].seqNo, 0, limit) then {} else {0}, {})
  }

  // ---------- What the window allows ----------

  ghost predicate AtMost(indices: set<nat>, end: int) {
    forall j :: j in indices ==> j <= end
  }

  /** Nothing lies further ahead of the first missing packet than the window. */
  ghost predicate Compact(known: set<nat>, window: int) {
    AtMost(known, FirstMissing(known) + window)
  }

  /**
   What the event makes known lies within the window: what a data packet recovers seen from the first
   packet not known before, then the data packet itself seen from the first one not known then.
   */
  ghost predicate Reaches(c: Cast, log: Log, e: Event, window: int) {
    var known, known' := Rec(c, log), Rec(c, After(log, e));
    if e.Data? then
      var more := known + (known' - {e.i});
      AtMost(more, FirstMissing(known) + window) && e.i <= FirstMissing(more) + window
    else AtMost(known', FirstMissing(known) + window)
  }

  ghost predicate ReachesAt(c: Cast, log: Log, events: seq<Event>, window: int, k: nat) {
    k < |events| && Reaches(c, LogAfter(log, events[..k]), events[k], window)
  }

  /** The first n events do. */
  ghost predicate ReachTo(c: Cast, log: Log, events: seq<Event>, window: int, n: nat) {
    forall k: nat :: k < n ==> ReachesAt(c, log, events, window, k)
  }

  ghost predicate AllReach(c: Cast, log: Log, events: seq<Event>, window: int) {
    ReachTo(c, log, events, window, |events|)
  }

  lemma ReachNext(c: Cast, log: Log, events: seq<Event>, window: int, n: nat)
    requires n < |events| && ReachTo(c, log, events, window, n)
    ensures ReachTo(c, log, events, window, n + 1) <==> ReachesAt(c, log, events, window, n)
    ensures AllReach(c, log, events, window) ==> ReachesAt(c, log, events, window, n)
  {
  }

  /** Seen from the first missing packet, the numbers of the event are told apart; in a short stream they always are. */
  ghost predicate Close(c: Cast, log: Log, e: Event) {
    var m := FirstMissing(Rec(c, log));
    if e.Data? then Near(c, m, e.i) else RunNear(c, m, e.r)
  }

  ghost predicate AllClose(c: Cast, log: Log, events: seq<Event>) {
    forall k :: 0 <= k < |events| ==> Close(c, LogAfter(log, events[..k]), events[k])
  }

  lemma ShortIsClose(c: Cast, log: Log, events: seq<Event>)
    requires Framed(c) && |c.sent| <= HALF && AllProper(c, events)
    ensures AllClose(c, log, events)
  {
    forall k | 0 <= k < |events|
      ensures Close(c, LogAfter(log, events[..k]), events[k])
    {
      assert Proper(c, events[k]);
      assert events[k].Parity? ==> Shape(c, events[k].r);
    }
  }

  /** In terms of what arrived alone: neither the packet nor its run reaches further than the window past the first packet that did not arrive. */
  ghost predicate Within(c: Cast, log: Log, e: Event, window: int) {
    var end := FirstMissing(log.arrived) + window;
    if e.Data? then e.i <= end && forall r: nat, j: nat :: InRun(c, r, e.i) && InRun(c, r, j) ==> j <= end
    else forall j: nat :: InRun(c, e.r, j) ==> j <= end
  }

  ghost predicate AllWithin(c: Cast, log: Log, events: seq<Event>, window: int) {
    forall k :: 0 <= k < |events| ==> Within(c, LogAfter(log, events[..k]), events[k], window)
  }

  lemma FirstMissingGrows(a: set<nat>, b: set<nat>)
    requires a <= b
    ensures FirstMissing(a) <= FirstMissing(b)
  {
    assert FirstMissing(b) < FirstMissing(a) ==> FirstMissing(b) in a;
  }

  /** What a data packet makes known besides itself is of its run. */
  lemma NewIsMate(c: Cast, log: Log, i: nat, j: nat)
    requires j in Rec(c, WithData(log, i)) && j !in Rec(c, log) && j != i
    ensures exists r: nat :: InRun(c, r, i) && InRun(c, r, j)
  {
    var log' := WithData(log, i);
    var r :| r in log'.seen && InRun(c, r, j) && OthersIn(c, log'.counted, r, j);
    assert !InRun(c, r, i) ==> OthersIn(c, log.counted, r, j);
  }

  lemma NewIsOfRun(c: Cast, log: Log, r: nat, j: nat)
    requires j in Rec(c, WithParity(log, r)) && j !in Rec(c, log)
    ensures InRun(c, r, j)
  {
    var log' := WithParity(log, r);
    var q :| q in log'.seen && InRun(c, q, j) && OthersIn(c, log'.counted, q, j);
    assert log'.counted == log.counted;
  }

  lemma AfterGrows(c: Cast, log: Log, e: Event)
    ensures Rec(c, log) <= Rec(c, After(log, e))
  {
    RecGrows(c, log, After(log, e));
  }

  lemma WithinReaches(c: Cast, log: Log, e: Event, window: int)
    requires Sane(c, log) && window >= 0 && Compact(Rec(c, log), window) && Within(c, log, e, window)
    ensures Reaches(c, log, e, window)
  {
    var known, known' := Rec(c, log), Rec(c, After(log, e));
    assert log.arrived <= known;
    FirstMissingGrows(log.arrived, known);
    var more := if e.Data? then known + (known' - {e.i}) else known';
    forall j | j in more
      ensures j <= FirstMissing(known) + window
    {
      if j !in known {
        if e.Data? {
          NewIsMate(c, log, e.i, j);
        } else {
          NewIsOfRun(c, log, e.r, j);
        }
      }
    }
    AfterGrows(c, log, e);
    FirstMissingGrows(known, more);
  }

  /** What stays within the window leaves everything known within the window. */
  lemma ReachesCompact(c: Cast, log: Log, e: Event, window: int)
    requires Reaches(c, log, e, window)
    ensures Compact(Rec(c, After(log, e)), window)
  {
    var known, known' := Rec(c, log), Rec(c, After(log, e));
    AfterGrows(c, log, e);
    FirstMissingGrows(known, known');
    if e.Data? {
      var more := known + (known' - {e.i});
      FirstMissingGrows(more, known');
      forall j | j in known'
        ensures j <= FirstMissing(known') + window
      {
        assert j == e.i || j in more;
      }
    }
  }

  lemma WithinStep(c: Cast, log: Log, events: seq<Event>, window: int, k: nat)
    requires Sane(c, log) && AllProper(c, events) && window >= 0 && AllWithin(c, log, events, window) && k < |events|
    requires Compact(Rec(c, LogAfter(log, events[..k])), window)
    ensures Reaches(c, LogAfter(log, events[..k]), events[k], window)
    ensures Compact(Rec(c, LogAfter(log, events[..k + 1])), window)
  {
    var before := LogAfter(log, events[..k]);
    LogIsSane(c, log, events[..k]);
    LogNext(log, events, k);
    WithinReaches(c, before, events[k], window);
    ReachesCompact(c, before, events[k], window);
  }

  lemma {:induction false} StaysCompact(c: Cast, log: Log, events: seq<Event>, window: int, k: nat)
    requires Sane(c, log) && AllProper(c, events) && window >= 0 && Compact(Rec(c, log), window) && AllWithin(c, log, events, window)
    requires k <= |events|
    ensures Compact(Rec(c, LogAfter(log, events[..k])), window)
  {
    if k == 0 {
      LogNone(log);
      assert events[..0] == [];
    } else {
      StaysCompact(c, log, events, window, k - 1);
      WithinStep(c, log, events, window, k - 1);
    }
  }

  /** So the window suffices whenever no arrival and no run of one reaches beyond it. */
  lemma WithinIsEnough(c: Cast, log: Log, events: seq<Event>, window: int)
    requires Sane(c, log) && AllProper(c, events) && window >= 0 && Compact(Rec(c, log), window) && AllWithin(c, log, events, window)
    ensures AllReach(c, log, events, window)
  {
    forall k: nat | k < |events|
      ensures ReachesAt(c, log, events, window, k)
    {
      StaysCompact(c, log, events, window, k);
      WithinStep(c, log, events, window, k);
    }
  }

  // ---------- One packet and the tracker ----------

  /** The stream suits the receiver's memory and window. */
  ghost predicate Suits(c: Cast, limit: int, window: int) {
    Protected(c) && SmallRuns(c, limit) && 0 <= limit && 0 <= window && Roomy(c, limit, window)
  }

  /** Seen from m the tracker is true, remembers what it must, owes nothing, and holds nothing too far behind. */
  ghost predicate Holding(c: Cast, m: nat, known: set<nat>, held: set<nat>, seen: set<nat>, groups: map<nat, Group>,
                          recent: map<u16, seq<byte>>, limit: int, back: int)
    requires 0 < |c.sent|
  {
    && GenuineData(recent, Truth(c, m)) && GenuineGroups(groups, Truth(c, m))
    && Remembers(c, m, recent.Keys, held, limit) && GroupsRight(c, m, groups, held, seen)
    && Served(c, groups, known, held, seen) && Spread(c, m, recent.Keys, groups.Keys, back)
  }

  /** What the buffer knows and the tracker holds after this much has come in. */
  ghost predicate Follows(c: Cast, log: Log, held: set<nat>, m: nat, window: int) {
    && Sane(c, log) && HeldRight(c, log, held) && Compact(Rec(c, log), window)
    && m == FirstMissing(Rec(c, log)) && 0 < m <= |c.sent|
  }

  lemma HeldIsNear(c: Cast, log: Log, held: set<nat>, m: nat, limit: int, window: int)
    requires Suits(c, limit, window) && Follows(c, log, held, m, window)
    ensures held <= Rec(c, log) && forall i :: i in held && i + limit >= m ==> i < |c.sent| && Near(c, m, i)
  {
    HeldIsRec(c, log, held);
  }

  lemma BackIsOwed(c: Cast, m: nat, groups: map<nat, Group>, held: set<nat>, seen: set<nat>, i: nat, recovered: seq<Recovered>)
    requires Framed(c) && m <= |c.sent| && GroupsRight(c, m, groups, held, seen) && GenuineGroups(groups, Truth(c, m))
    requires i < |c.sent| && Near(c, m, i) && Fed(c, m, groups, i, recovered)
    ensures forall j :: j in IndicesOf(c, m, recovered) ==>
              j < |c.sent| && exists r :: r in seen && InRun(c, r, j) && OthersIn(c, held + {i}, r, j)
  {
    forall j | j in IndicesOf(c, m, recovered)
      ensures j < |c.sent| && exists r :: r in seen && InRun(c, r, j) && OthersIn(c, held + {i}, r, j)
    {
      var r, k := RecoveredInRun(c, m, groups, held, seen, i, recovered, j, held + {i});
    }
  }

  lemma DataIsServed(c: Cast, log: Log, held: set<nat>, m: nat, groups: map<nat, Group>, i: nat, recovered: seq<Recovered>,
                     groups': map<nat, Group>, known': set<nat>, held': set<nat>, limit: int, window: int)
    requires Suits(c, limit, window) && Follows(c, log, held, m, window) && i < |c.sent| && Near(c, m, i)
    requires GroupsRight(c, m, groups, held, log.seen) && GenuineGroups(groups, Truth(c, m)) && Served(c, groups, Rec(c, log), held, log.seen)
    requires Fed(c, m, groups, i, recovered)
    requires groups' == TrimmedGroups(OfferedGroups(groups, c.sent[i].seqNo, c.sent[i].payload), Due(c.sent, m), limit)
    requires held' == held + {i} + IndicesOf(c, m, recovered) && known' == Rec(c, log) + {i} + IndicesOf(c, m, recovered)
    ensures Served(c, groups', known', held', log.seen) && GroupsRight(c, m, groups', held', log.seen)
    ensures known' == Rec(c, WithData(log, i)) && HeldRight(c, WithData(log, i), held')
  {
    var known, back := Rec(c, log), IndicesOf(c, m, recovered);
    HeldIsNear(c, log, held, m, limit, window);
    assert forall j: nat :: j < m ==> j in known;
    DataServes(c, m, groups, known, held, log.seen, i, recovered, groups', known', held', limit);
    OfferedRight(c, m, groups, held, log.seen, i, groups', held', limit);
    BackIsOwed(c, m, groups, held, log.seen, i, recovered);
    LogGrows(c, log, WithData(log, i), held, {i}, back, groups', known', held');
  }

  /** What is fed and recovered is remembered unless too old, and nothing too old is. */
  lemma MemoryIsKept(c: Cast, log: Log, held: set<nat>, m: nat, recent: set<u16>, numbers: set<u16>, fed: set<nat>, recovered: seq<Recovered>,
                     all: map<nat, Group>, groups': map<nat, Group>, recent': set<u16>, held': set<nat>, seen: set<nat>, limit: int, window: int)
    requires Suits(c, limit, window) && Follows(c, log, held, m, window) && Remembers(c, m, recent, held, limit)
    requires (forall i :: i in fed ==> i < |c.sent| && Near(c, m, i)) && GenuineResults(recovered, Truth(c, m))
    requires numbers == recent + NumbersOf(c, fed) && Keeps(recent', numbers, recovered, Due(c.sent, m), limit)
    requires held' == held + fed + IndicesOf(c, m, recovered)
    requires groups' == TrimmedGroups(all, Due(c.sent, m), limit) && GroupsRight(c, m, groups', held', seen)
    ensures Remembers(c, m, recent', held', limit) && Spread(c, m, recent', groups'.Keys, limit)
  {
    HeldIsNear(c, log, held, m, limit, window);
    RemembersMore(c, m, recent, held, limit, fed, recovered, recent', held');
    TrimSpreads(c, m, recent', numbers, recovered, groups', held', seen, all, limit);
  }

  lemma OneNumber(c: Cast, i: nat)
    requires i < |c.sent|
    ensures NumbersOf(c, {i}) == {c.sent[i].seqNo}
  {
  }

  lemma DataIsHeld(c: Cast, log: Log, held: set<nat>, m: nat, groups: map<nat, Group>, recent: map<u16, seq<byte>>, i: nat,
                   recovered: seq<Recovered>, groups': map<nat, Group>, recent': map<u16, seq<byte>>, limit: int, window: int, back: set<nat>)
    requires Suits(c, limit, window) && Follows(c, log, held, m, window) && i < |c.sent| && Near(c, m, i)
    requires Holding(c, m, Rec(c, log), held, log.seen, groups, recent, limit, limit + 2 * window + 2)
    requires Fed(c, m, groups, i, recovered) && back == IndicesOf(c, m, recovered)
    requires groups' == TrimmedGroups(OfferedGroups(groups, c.sent[i].seqNo, c.sent[i].payload), Due(c.sent, m), limit)
    requires Keeps(recent'.Keys, recent.Keys + {c.sent[i].seqNo}, recovered, Due(c.sent, m), limit)
    requires GenuineData(recent', Truth(c, m)) && GenuineGroups(groups', Truth(c, m))
    ensures Rec(c, WithData(log, i)) == Rec(c, log) + {i} + back
    ensures HeldRight(c, WithData(log, i), held + {i} + back)
    ensures Holding(c, m, Rec(c, WithData(log, i)), held + {i} + back, log.seen, groups', recent', limit, limit)
  {
    var known', held' := Rec(c, log) + {i} + back, held + {i} + back;
    DataIsServed(c, log, held, m, groups, i, recovered, groups', known', held', limit, window);
    OneNumber(c, i);
    MemoryIsKept(c, log, held, m, recent.Keys, recent.Keys + {c.sent[i].seqNo}, {i}, recovered,
                 OfferedGroups(groups, c.sent[i].seqNo, c.sent[i].payload), groups', recent'.Keys, held', log.seen, limit, window);
  }

  /** The groups after a parity packet: its own is opened unless it gave back a packet. */
  function Joined(groups: map<nat, Group>, r: nat, f: FecPayload, recent: map<u16, seq<byte>>, recovered: seq<Recovered>): map<nat, Group>
    requires |f.lengths| <= 255
  {
    if recovered == [] then groups[r := Collected(f, recent)] else groups
  }

  lemma ParityIsServed(c: Cast, log: Log, held: set<nat>, m: nat, groups: map<nat, Group>, recent: map<u16, seq<byte>>, r: nat,
                       recovered: seq<Recovered>, groups': map<nat, Group>, known': set<nat>, held': set<nat>, limit: int, window: int)
    requires Suits(c, limit, window) && Follows(c, log, held, m, window) && Shape(c, r) && RunNear(c, m, r)
    requires GroupsRight(c, m, groups, held, log.seen) && Served(c, groups, Rec(c, log), held, log.seen)
    requires Remembers(c, m, recent.Keys, held, limit) && GenuineData(recent, Truth(c, m)) && FedParity(c, m, recent, r, recovered)
    requires groups' == TrimmedGroups(Joined(groups, r, c.fecs[r], recent, recovered), Due(c.sent, m), limit)
    requires held' == held + IndicesOf(c, m, recovered) && known' == Rec(c, log) + IndicesOf(c, m, recovered)
    ensures Served(c, groups', known', held', log.seen + {r}) && GroupsRight(c, m, groups', held', log.seen + {r})
    ensures known' == Rec(c, WithParity(log, r)) && HeldRight(c, WithParity(log, r), held')
  {
    var known, back, g := Rec(c, log), IndicesOf(c, m, recovered), Collected(c.fecs[r], recent);
    HeldIsNear(c, log, held, m, limit, window);
    assert forall j: nat :: j < m ==> j in known;
    assert Describes(c, r);
    GroupIsRight(c, m, recent, known, held, r, limit);
    ParityServes(c, m, groups, recent, known, held, log.seen, r, recovered, g, groups', known', held', limit);
    CollectedRight(c, m, groups, held, log.seen, r, g, groups', held', Due(c.sent, m), limit, recovered == []);
    ParityLogged(c, log, held, m, recent, r, recovered, groups', known', held', limit);
  }

  lemma GroupIsRight(c: Cast, m: nat, recent: map<u16, seq<byte>>, known: set<nat>, held: set<nat>, r: nat, limit: int)
    requires Numbered(c) && m <= |c.sent| && Describes(c, r) && RunNear(c, m, r) && |c.fecs[r].lengths| <= limit
    requires Remembers(c, m, recent.Keys, held, limit) && GenuineData(recent, Truth(c, m)) && forall j: nat :: j < m ==> j in known
    ensures WithinHeld(c, Collected(c.fecs[r], recent), held, r)
    ensures Settled(c, known, r) || (Agrees(c, recent, held, r) && Fills(c, Collected(c.fecs[r], recent), held, r))
  {
    RunIsGenuine(c, m, r, GroupOf(c.fecs[r]));
    CollectedHolds(c, m, recent, held, r, limit);
    if !Settled(c, known, r) {
      UnsettledAgrees(c, m, recent, known, held, r, limit);
    }
  }

  lemma ParityLogged(c: Cast, log: Log, held: set<nat>, m: nat, recent: map<u16, seq<byte>>, r: nat, recovered: seq<Recovered>,
                     groups': map<nat, Group>, known': set<nat>, held': set<nat>, limit: int)
    requires Framed(c) && Sane(c, log) && HeldRight(c, log, held) && m <= |c.sent| && r < |c.runs| && RunNear(c, m, r)
    requires Remembers(c, m, recent.Keys, held, limit) && FedParity(c, m, recent, r, recovered)
    requires held' == held + IndicesOf(c, m, recovered) && known' == Rec(c, log) + IndicesOf(c, m, recovered)
    requires Served(c, groups', known', held', log.seen + {r})
    ensures known' == Rec(c, WithParity(log, r)) && HeldRight(c, WithParity(log, r), held')
  {
    var back, log' := IndicesOf(c, m, recovered), WithParity(log, r);
    forall j | j in back
      ensures j < |c.sent| && exists q :: q in log'.seen && InRun(c, q, j) && OthersIn(c, held + {}, q, j)
    {
      RecoveredOfParity(c, m, recent, held, r, recovered, j, limit);
      assert held + {} == held;
      assert r in log'.seen;
    }
    assert known' == Rec(c, log) + {} + back && held' == held + {} + back;
    LogGrows(c, log, log', held, {}, back, groups', known', held');
  }

  lemma ParityIsHeld(c: Cast, log: Log, held: set<nat>, m: nat, groups: map<nat, Group>, recent: map<u16, seq<byte>>, r: nat,
                     recovered: seq<Recovered>, groups': map<nat, Group>, recent': map<u16, seq<byte>>, limit: int, window: int, back: set<nat>)
    requires Suits(c, limit, window) && Follows(c, log, held, m, window) && Shape(c, r) && RunNear(c, m, r)
    requires Holding(c, m, Rec(c, log), held, log.seen, groups, recent, limit, limit + 2 * window + 2)
    requires FedParity(c, m, recent, r, recovered) && back == IndicesOf(c, m, recovered)
    requires groups' == TrimmedGroups(Joined(groups, r, c.fecs[r], recent, recovered), Due(c.sent, m), limit)
    requires Keeps(recent'.Keys, recent.Keys, recovered, Due(c.sent, m), limit)
    requires GenuineData(recent', Truth(c, m)) && GenuineGroups(groups', Truth(c, m))
    ensures Rec(c, WithParity(log, r)) == Rec(c, log) + back && HeldRight(c, WithParity(log, r), held + back)
    ensures Holding(c, m, Rec(c, WithParity(log, r)), held + back, log.seen + {r}, groups', recent', limit, limit)
  {
    var known', held' := Rec(c, log) + back, held + back;
    ParityIsServed(c, log, held, m, groups, recent, r, recovered, groups', known', held', limit, window);
    assert recent.Keys == recent.Keys + NumbersOf(c, {}) && held' == held + {} + back;
    MemoryIsKept(c, log, held, m, recent.Keys, recent.Keys, {}, recovered, Joined(groups, r, c.fecs[r], recent, recovered),
                 groups', recent'.Keys, held', log.seen + {r}, limit, window);
  }

  lemma OneOfParity(c: Cast, m: nat, recent: map<u16, seq<byte>>, held: set<nat>, r: nat, recovered: seq<Recovered>, limit: int)
    requires Numbered(c) && m <= |c.sent| && Shape(c, r) && RunNear(c, m, r) && Remembers(c, m, recent.Keys, held, limit)
    requires FedParity(c, m, recent, r, recovered)
    ensures AtMostOne(IndicesOf(c, m, recovered))
  {
    forall j | j in IndicesOf(c, m, recovered)
      ensures IndicesOf(c, m, recovered) == {j}
    {
      RecoveredOfParity(c, m, recent, held, r, recovered, j, limit);
    }
  }

  /** The view moves on with the first missing packet. */
  lemma HoldingMoves(c: Cast, m: nat, m': nat, known: set<nat>, held: set<nat>, seen: set<nat>, groups: map<nat, Group>,
                     recent: map<u16, seq<byte>>, limit: int, window: int)
    requires Suits(c, limit, window) && Holding(c, m, known, held, seen, groups, recent, limit, limit)
    requires 0 < m <= m' <= |c.sent| && m' <= m + 2 * window + 2
    ensures Holding(c, m', known, held, seen, groups, recent, limit, limit + 2 * window + 2)
  {
    RebaseRecent(c, m, m', recent, held, limit, window);
    RebaseGroups(c, m, m', groups, held, seen, limit, window);
  }

  /** One event moves the first missing packet by at most two windows. */
  lemma MovesLittle(c: Cast, log: Log, e: Event, window: int)
    requires Reaches(c, log, e, window) && window >= 0
    ensures FirstMissing(Rec(c, log)) <= FirstMissing(Rec(c, After(log, e))) <= FirstMissing(Rec(c, log)) + 2 * window + 2
  {
    var known, known' := Rec(c, log), Rec(c, After(log, e));
    AfterGrows(c, log, e);
    FirstMissingGrows(known, known');
    var more := if e.Data? then known + (known' - {e.i}) else known';
    FirstMissingGrows(known, more);
    Bounded(more, FirstMissing(known) + window);
    forall j | j in known'
      ensures j <= FirstMissing(more) + window
    {
      assert j in more || (e.Data? && j == e.i);
    }
    Bounded(known', FirstMissing(more) + window);
  }

  lemma Bounded(known: set<nat>, end: nat)
    requires AtMost(known, end)
    ensures FirstMissing(known) <= end + 1
  {
    assert FirstMissing(known) > end + 1 ==> end + 1 in known;
  }

  // ---------- One packet and the buffer ----------

  /** A data packet whose results are pushed before it stays within the window exactly if each of these pushes does. */
  lemma ReachIsPushed(c: Cast, log: Log, i: nat, back: set<nat>, window: int)
    requires Compact(Rec(c, log), window) && i !in back && Rec(c, WithData(log, i)) == Rec(c, log) + {i} + back
    ensures Reaches(c, log, Data(i), window) <==>
              AtMost(back, FirstMissing(Rec(c, log)) + window) && i <= FirstMissing(Rec(c, log) + back) + window
  {
    var known, known' := Rec(c, log), Rec(c, WithData(log, i));
    assert known + (known' - {i}) == known + back;
  }

  lemma ParityReachIsPushed(c: Cast, log: Log, r: nat, back: set<nat>, window: int)
    requires Compact(Rec(c, log), window) && Rec(c, WithParity(log, r)) == Rec(c, log) + back
    ensures Reaches(c, log, Parity(r), window) <==> AtMost(back, FirstMissing(Rec(c, log)) + window)
  {
  }

  /** Pushing a packet leaves it near. */
  lemma StaysNear(c: Cast, known: set<nat>, j: nat, more: set<nat>, i: nat, limit: int, window: int)
    requires Compact(known, window) && 0 <= window && 0 <= limit && Roomy(c, limit, window) && j <= FirstMissing(known) + window
    requires more == known + {j} && Near(c, FirstMissing(known), i) && -limit <= i - j <= limit
    ensures Near(c, FirstMissing(more), i)
  {
    var m := FirstMissing(known);
    if j == m {
      FirstMissingGrows(known, more);
      Bounded(more, m + window);
    } else {
      RunEndIs(more, 0, m);
    }
  }

  lemma IndicesNext(c: Cast, m: nat, rs: seq<Recovered>, j: nat, back: set<nat>)
    requires 0 < |c.sent| && j < |rs| && rs[j].Recovered? && back == IndicesOf(c, m, rs)
    ensures IndicesOf(c, m, rs[..j + 1]) == IndicesOf(c, m, rs[..j]) + {Index(c, m, rs[j].seqNo)}
    ensures IndicesOf(c, m, rs[..j]) <= back && Index(c, m, rs[j].seqNo) in back
  {
    assert rs[..j + 1] == rs[..j] + [rs[j]] && rs[j] in rs;
  }

  /** Pushing one packet again and again finds it near. */
  lemma OnceMore(c: Cast, m: nat, known: set<nat>, done: set<nat>, i: nat, limit: int, window: int)
    requires Compact(known, window) && 0 <= window && 0 <= limit && Roomy(c, limit, window) && m == FirstMissing(known)
    requires Near(c, m, i) && done <= {i} && AtMost(done, m + window)
    ensures AtMost(done + {i}, m + window) <==> i <= m + window
    ensures Near(c, FirstMissing(known + done), i) && (i <= FirstMissing(known + done) + window <==> i <= m + window)
  {
    FirstMissingGrows(known, known + done);
    if i in done {
      assert done == {i};
      StaysNear(c, known, i, known + done, i, limit, window);
    } else {
      assert known + done == known;
    }
  }

  lemma StillNear(c: Cast, known: set<nat>, back: set<nat>, i: nat, limit: int, window: int)
    requires Compact(known, window) && 0 <= window && 0 <= limit && Roomy(c, limit, window) && AtMostOne(back)
    requires AtMost(back, FirstMissing(known) + window) && forall j :: j in back ==> -limit <= i - j <= limit
    requires Near(c, FirstMissing(known), i)
    ensures Near(c, FirstMissing(known + back), i)
  {
    if j :| j in back {
      assert back == {j};
      StaysNear(c, known, j, known + back, i, limit, window);
    } else {
      assert known + back == known;
    }
  }

  lemma MatesAreNear(c: Cast, m: nat, groups: map<nat, Group>, held: set<nat>, seen: set<nat>, i: nat, recovered: seq<Recovered>, limit: int)
    requires Framed(c) && m <= |c.sent| && GroupsRight(c, m, groups, held, seen) && GenuineGroups(groups, Truth(c, m)) && SmallRuns(c, limit)
    requires i < |c.sent| && Near(c, m, i) && Fed(c, m, groups, i, recovered)
    ensures forall j :: j in IndicesOf(c, m, recovered) ==> -limit <= i - j <= limit
  {
    forall j | j in IndicesOf(c, m, recovered)
      ensures -limit <= i - j <= limit
    {
      var r, k := RecoveredInRun(c, m, groups, held, seen, i, recovered, j, held + {i});
      assert Shape(c, r);
    }
  }

  /** The tracker after the first packet. */
  lemma StartedIs(c: Cast, limit: int, recovered: seq<Recovered>, groups: map<nat, Group>, recent: map<u16, seq<byte>>, window: int)
    requires Suits(c, limit, window) && Fed(c, 1, map[], 0, recovered) && GenuineData(recent, Truth(c, 1))
    requires groups == TrimmedGroups(OfferedGroups(map[], c.sent[0].seqNo, c.sent[0].payload), 0, limit)
    requires Keeps(recent.Keys, {c.sent[0].seqNo}, recovered, 0, limit)
    ensures var log := Started(c, limit);
            && Rec(c, log) == {0} && Follows(c, log, log.counted, 1, window)
            && Holding(c, 1, {0}, log.counted, {}, groups, recent, limit, limit + 2 * window + 2)
  {
    StartedLog(c, limit, window);
    StartedMemory(c, limit, recovered, recent.Keys);
    assert groups == map[];
  }

  lemma StartedLog(c: Cast, limit: int, window: int)
    requires 0 < |c.sent| && 0 <= window
    ensures Rec(c, Started(c, limit)) == {0} && Follows(c, Started(c, limit), Started(c, limit).counted, 1, window)
  {
    RunEndIs({0}, 0, 1);
    assert Rec(c, Started(c, limit)) == {0};
  }

  lemma StartedMemory(c: Cast, limit: int, recovered: seq<Recovered>, recent: set<u16>)
    requires Numbered(c) && Fed(c, 1, map[], 0, recovered) && Keeps(recent, {c.sent[0].seqNo}, recovered, 0, limit)
    ensures forall s :: s in recent ==> s == c.sent[0].seqNo && Index(c, 1, s) == 0 && s in Truth(c, 1)
    ensures Remembers(c, 1, recent, Started(c, limit).counted, limit)
  {
    assert forall r :: r !in recovered;
    NumberOf(c, 1, 0);
  }

  lemma WindowSuffices(c: Cast, log: Log, events: seq<Event>, window: int)
    requires Framed(c) && Sane(c, log) && AllProper(c, events) && window >= 0 && Compact(Rec(c, log), window)
    ensures AllWithin(c, log, events, window) || window >= |c.sent| ==> AllReach(c, log, events, window)
  {
    if AllWithin(c, log, events, window) {
      WithinIsEnough(c, log, events, window);
    } else if window >= |c.sent| {
      forall k: nat | k < |events|
        ensures ReachesAt(c, log, events, window, k)
      {
        assert Proper(c, events[k]);
      }
    }
  }

  lemma WholeIff(c: Cast, log: Log)
    requires FirstMissing(Rec(c, log)) <= |c.sent|
    ensures c.sent[..FirstMissing(Rec(c, log))] == c.sent <==> forall i: nat :: i < |c.sent| ==> Recoverable(c, log, i)
  {
    var known := Rec(c, log);
    var m := FirstMissing(known);
    assert |c.sent[..m]| == m;
    assert forall i: nat :: i < m ==> i in known && Recoverable(c, log, i);
    assert m < |c.sent| ==> m !in known && !Recoverable(c, log, m);
  }

  // ---------- The receiver ----------

  class RepairingReceiver {
    const tracker: ParityTracker
    const reorder: ReorderBuffer
    var released: seq<Ordered>

    constructor (window: int, tolerance: int, limit: int)
      ensures fresh(tracker) && fresh(reorder) && released == []
      ensures tracker.Valid() && tracker.groups == map[] && tracker.recent == map[]
      ensures tracker.maxRecent == if limit < 32 then 32 else limit
      ensures !reorder.started && reorder.pending == map[] && reorder.expected == 0
      ensures reorder.reorderWindow == (if window > 0 then window else 8) && reorder.lossTolerance == (if tolerance >= 0 then tolerance else 2)
    {
      tracker := new ParityTracker(limit);
      reorder := new ReorderBuffer(window, tolerance);
      released := [];
    }

    /** The window and the tolerance together. */
    ghost function Window(): int
      reads reorder
    {
      reorder.reorderWindow + reorder.lossTolerance
    }

    /** Everything known has gone through the buffer in order. */
    ghost predicate InOrder(c: Cast, known: set<nat>)
      reads this, reorder
    {
      Tracks(reorder.View(), c.sent, known) && released == c.sent[..FirstMissing(known)]
    }

    /** The buffer and the tracker are where this log leaves them. */
    ghost predicate Ready(c: Cast, log: Log, held: set<nat>)
      reads this, tracker, reorder
    {
      var known, limit := Rec(c, log), tracker.maxRecent;
      var m := FirstMissing(known);
      && Suits(c, limit, Window()) && Follows(c, log, held, m, Window()) && InOrder(c, known) && tracker.Valid()
      && Holding(c, m, known, held, log.seen, tracker.groups, tracker.recent, limit, limit + 2 * Window() + 2)
    }

    method Push(s: u16, payload: seq<byte>, ghost c: Cast, ghost i: nat, ghost known: set<nat>) returns (ok: bool)
      requires Numbered(c) && i < |c.sent| && c.sent[i] == Ordered(s, payload) && InOrder(c, known) && Near(c, FirstMissing(known), i)
      modifies this`released, reorder
      ensures ok <==> i <= FirstMissing(known) + old(Window())
      ensures ok ==> InOrder(c, known + {i})
      ensures Window() == old(Window())
    {
      ghost var st := reorder.View();
      var ready, verdict := reorder.Push(s, payload);
      PushIsExact(st, c.sent, known, i);
      PushKeepsTuning(st, s, payload);
      if verdict.GapOverflow? {
        return false;
      }
      SliceJoin(c.sent, 0, FirstMissing(known), FirstMissing(known + {i}));
      released := released + ready;
      ok := true;
    }

    /** Pushes the results, which are all one packet. */
    method PushAll(rs: seq<Recovered>, ghost c: Cast, ghost m: nat, ghost known: set<nat>, ghost back: set<nat>) returns (ok: bool)
      requires Numbered(c) && InOrder(c, known) && Compact(known, Window()) && m == FirstMissing(known)
      requires tracker.maxRecent >= 0 && Roomy(c, tracker.maxRecent, Window())
      requires GenuineResults(rs, Truth(c, m)) && back == IndicesOf(c, m, rs) && AtMostOne(back)
      modifies this`released, reorder
      ensures ok <==> AtMost(back, m + old(Window()))
      ensures ok ==> InOrder(c, known + back)
      ensures Window() == old(Window())
    {
      ghost var done, window := {}, Window();
      var j := 0;
      assert IndicesOf(c, m, rs[..0]) == {} && known + {} == known;
      while j < |rs|
        invariant 0 <= j <= |rs| && InOrder(c, known + done) && Window() == window
        invariant done == IndicesOf(c, m, rs[..j]) && AtMost(done, m + window)
      {
        ghost var i := Index(c, m, rs[j].seqNo);
        IndexOf(c, m, rs[j].seqNo);
        IndicesNext(c, m, rs, j, back);
        OnceMore(c, m, known, done, i, tracker.maxRecent, window);
        ok := Push(rs[j].seqNo, rs[j].payload, c, i, known + done);
        if !ok {
          return;
        }
        done := done + {i};
        assert known + IndicesOf(c, m, rs[..j]) + {i} == known + done;
        j := j + 1;
      }
      assert rs[..j] == rs;
      ok := true;
    }

    method FeedData(c: Cast, i: nat, expected: u16, ghost m: nat) returns (recovered: seq<Recovered>)
      requires Numbered(c) && i < |c.sent| && m <= |c.sent| && Near(c, m, i) && tracker.Valid() && tracker.Genuine(Truth(c, m))
      modifies tracker
      ensures tracker.Valid() && tracker.Genuine(Truth(c, m)) && Fed(c, m, old(tracker.groups), i, recovered)
      ensures tracker.groups == TrimmedGroups(OfferedGroups(old(tracker.groups), c.sent[i].seqNo, c.sent[i].payload), expected, tracker.maxRecent)
      ensures Keeps(tracker.recent.Keys, old(tracker.recent).Keys + {c.sent[i].seqNo}, recovered, expected, tracker.maxRecent)
    {
      NumberOf(c, m, i);
      recovered := tracker.ObserveData(c.sent[i].seqNo, c.sent[i].payload, expected, Truth(c, m));
    }

    /** The tracker takes a data packet; with what it recovers it is where the new log leaves it. */
    method AbsorbData(c: Cast, i: nat, ghost log: Log, ghost held: set<nat>, ghost m: nat) returns (recovered: seq<Recovered>, ghost back: set<nat>)
      requires Ready(c, log, held) && i < |c.sent| && m == FirstMissing(Rec(c, log)) && Near(c, m, i)
      modifies tracker
      ensures GenuineResults(recovered, Truth(c, m)) && back == IndicesOf(c, m, recovered)
      ensures i !in back && AtMostOne(back) && forall j :: j in back ==> -tracker.maxRecent <= i - j <= tracker.maxRecent
      ensures Rec(c, WithData(log, i)) == Rec(c, log) + {i} + back && HeldRight(c, WithData(log, i), held + {i} + back)
      ensures tracker.Valid()
      ensures Holding(c, m, Rec(c, WithData(log, i)), held + {i} + back, log.seen, tracker.groups, tracker.recent, tracker.maxRecent, tracker.maxRecent)
    {
      ghost var groups, recent, limit := tracker.groups, tracker.recent, tracker.maxRecent;
      recovered := FeedData(c, i, reorder.expected, m);
      back := IndicesOf(c, m, recovered);
      OneIsBack(c, m, groups, held, log.seen, i, recovered);
      MatesAreNear(c, m, groups, held, log.seen, i, recovered, limit);
      DataIsHeld(c, log, held, m, groups, recent, i, recovered, tracker.groups, tracker.recent, limit, Window(), back);
    }

    /** A data packet goes to the tracker; what that recovers and the packet itself go to the buffer. */
    method OnData(c: Cast, i: nat, ghost log: Log, ghost held: set<nat>) returns (ok: bool, ghost held': set<nat>)
      requires Ready(c, log, held) && i < |c.sent| && Close(c, log, Data(i))
      modifies this`released, tracker, reorder
      ensures ok <==> Reaches(c, log, Data(i), old(Window()))
      ensures ok ==> Ready(c, WithData(log, i), held')
      ensures Window() == old(Window())
    {
      ghost var known, m := Rec(c, log), FirstMissing(Rec(c, log));
      ghost var back;
      var recovered;
      recovered, back := AbsorbData(c, i, log, held, m);
      held' := held + {i} + back;
      ReachIsPushed(c, log, i, back, Window());
      ok := PushAll(recovered, c, m, known, back);
      if !ok {
        return;
      }
      StillNear(c, known, back, i, tracker.maxRecent, Window());
      ok := Push(c.sent[i].seqNo, c.sent[i].payload, c, i, known + back);
      if ok {
        assert known + back + {i} == Rec(c, WithData(log, i));
        Resume(c, log, held', Data(i), m);
      }
    }

    /** With the buffer up to date the receiver is ready for the next event. */
    ghost method Resume(c: Cast, log: Log, held': set<nat>, e: Event, m: nat)
      requires Suits(c, tracker.maxRecent, Window()) && Sane(c, log) && Proper(c, e) && m == FirstMissing(Rec(c, log)) && 0 < m
      requires Reaches(c, log, e, Window()) && HeldRight(c, After(log, e), held') && InOrder(c, Rec(c, After(log, e))) && tracker.Valid()
      requires Holding(c, m, Rec(c, After(log, e)), held', After(log, e).seen, tracker.groups, tracker.recent, tracker.maxRecent, tracker.maxRecent)
      ensures Ready(c, After(log, e), held')
    {
      var log' := After(log, e);
      var m' := FirstMissing(Rec(c, log'));
      ReachesCompact(c, log, e, Window());
      MovesLittle(c, log, e, Window());
      HoldingMoves(c, m, m', Rec(c, log'), held', log'.seen, tracker.groups, tracker.recent, tracker.maxRecent, Window());
    }

    method FeedParity(c: Cast, r: nat, expected: u16, ghost m: nat) returns (recovered: seq<Recovered>)
      requires Numbered(c) && Describes(c, r) && RunNear(c, m, r) && m <= |c.sent| && tracker.Valid() && tracker.Genuine(Truth(c, m))
      modifies tracker
      ensures tracker.Valid() && tracker.Genuine(Truth(c, m)) && FedParity(c, m, old(tracker.recent), r, recovered)
      ensures tracker.groups == TrimmedGroups(Joined(old(tracker.groups), r, c.fecs[r], old(tracker.recent), recovered), expected, tracker.maxRecent)
      ensures Keeps(tracker.recent.Keys, old(tracker.recent).Keys, recovered, expected, tracker.maxRecent)
    {
      RunIsGenuine(c, m, r, GroupOf(c.fecs[r]));
      ParseBuild(c.fecs[r]);
      var accepted;
      recovered, accepted := tracker.ObserveFec(Build(c.fecs[r]), r, expected, Truth(c, m));
    }

    /** The tracker takes a parity packet; with what it recovers it is where the new log leaves it. */
    method AbsorbParity(c: Cast, r: nat, ghost log: Log, ghost held: set<nat>, ghost m: nat) returns (recovered: seq<Recovered>, ghost back: set<nat>)
      requires Ready(c, log, held) && Describes(c, r) && m == FirstMissing(Rec(c, log)) && RunNear(c, m, r)
      modifies tracker
      ensures GenuineResults(recovered, Truth(c, m)) && back == IndicesOf(c, m, recovered) && AtMostOne(back)
      ensures Rec(c, WithParity(log, r)) == Rec(c, log) + back && HeldRight(c, WithParity(log, r), held + back)
      ensures tracker.Valid()
      ensures Holding(c, m, Rec(c, WithParity(log, r)), held + back, log.seen + {r}, tracker.groups, tracker.recent, tracker.maxRecent, tracker.maxRecent)
    {
      ghost var groups, recent, limit := tracker.groups, tracker.recent, tracker.maxRecent;
      recovered := FeedParity(c, r, reorder.expected, m);
      back := IndicesOf(c, m, recovered);
      OneOfParity(c, m, recent, held, r, recovered, limit);
      ParityIsHeld(c, log, held, m, groups, recent, r, recovered, tracker.groups, tracker.recent, limit, Window(), back);
    }

    /** A parity packet goes to the tracker; what that recovers goes to the buffer. */
    method OnParity(c: Cast, r: nat, ghost log: Log, ghost held: set<nat>) returns (ok: bool, ghost held': set<nat>)
      requires Ready(c, log, held) && Describes(c, r) && Close(c, log, Parity(r))
      modifies this`released, tracker, reorder
      ensures ok <==> Reaches(c, log, Parity(r), old(Window()))
      ensures ok ==> Ready(c, WithParity(log, r), held')
      ensures Window() == old(Window())
    {
      ghost var known, m := Rec(c, log), FirstMissing(Rec(c, log));
      ghost var back;
      var recovered;
      recovered, back := AbsorbParity(c, r, log, held, m);
      held' := held + back;
      ParityReachIsPushed(c, log, r, back, Window());
      ok := PushAll(recovered, c, m, known, back);
      if ok {
        Resume(c, log, held', Parity(r), m);
      }
    }

    method OnEvent(c: Cast, e: Event, ghost log: Log, ghost held: set<nat>) returns (ok: bool, ghost held': set<nat>)
      requires Ready(c, log, held) && Proper(c, e) && Close(c, log, e)
      modifies this`released, tracker, reorder
      ensures ok <==> Reaches(c, log, e, old(Window()))
      ensures ok ==> Ready(c, After(log, e), held')
      ensures Window() == old(Window())
    {
      if e.Data? {
        ok, held' := OnData(c, e.i, log, held);
      } else {
        assert Describes(c, e.r);
        ok, held' := OnParity(c, e.r, log, held);
      }
    }

    /** The first data packet starts the buffer. */
    method Start(c: Cast)
      requires Suits(c, tracker.maxRecent, Window()) && released == [] && tracker.groups == map[] && tracker.recent == map[]
      requires !reorder.started && reorder.pending == map[] && reorder.expected == 0 && Tuned(reorder.View())
      modifies this`released, tracker, reorder
      ensures Ready(c, Started(c, tracker.maxRecent), Started(c, tracker.maxRecent).counted) && Window() == old(Window())
    {
      var recovered := FeedData(c, 0, 0, 1);
      StartedIs(c, tracker.maxRecent, recovered, tracker.groups, tracker.recent, Window());
      PushFirst(c);
    }

    method PushFirst(c: Cast)
      requires Numbered(c) && released == [] && !reorder.started && reorder.pending == map[] && Tuned(reorder.View())
      modifies this`released, reorder
      ensures InOrder(c, {0}) && Window() == old(Window())
    {
      var s, payload := c.sent[0].seqNo, c.sent[0].payload;
      ghost var st := reorder.View();
      var ready, verdict := reorder.Push(s, payload);
      RunEndIs({0}, 0, 1);
      assert Above({0}, 1) == {};
      FirstPush(st, c.sent, 0, {0});
      PushKeepsTuning(st, s, payload);
      released := released + ready;
    }

    /** The packets after the first one, in whatever order they come. */
    method Follow(c: Cast, events: seq<Event>, ghost log0: Log, ghost held0: set<nat>) returns (ok: bool, ghost held: set<nat>)
      requires Ready(c, log0, held0) && AllProper(c, events) && AllClose(c, log0, events)
      modifies this`released, tracker, reorder
      ensures ok <==> AllReach(c, log0, events, old(Window()))
      ensures ok ==> Ready(c, LogAfter(log0, events), held)
    {
      held, ok := held0, true;
      ghost var window := Window();
      var k := 0;
      assert LogAfter(log0, events[..0]) == log0;
      while k < |events|
        invariant 0 <= k <= |events| && ok && Ready(c, LogAfter(log0, events[..k]), held) && Window() == window
        invariant ReachTo(c, log0, events, window, k)
      {
        LogNext(log0, events, k);
        ok, held := OnEvent(c, events[k], LogAfter(log0, events[..k]), held);
        ReachNext(c, log0, events, window, k);
        if !ok {
          return;
        }
        k := k + 1;
      }
      assert events[..k] == events;
    }

    /**
     Whatever of the data and parity packets arrives after the first data packet, in whatever order
     and however often: the receiver fails exactly if something then known lies beyond the window;
     otherwise exactly the packets before the first one that neither arrived nor can be recovered
     are released, in order.
     */
    method Receive(c: Cast, events: seq<Event>) returns (ok: bool)
      requires Suits(c, tracker.maxRecent, Window()) && released == [] && tracker.groups == map[] && tracker.recent == map[]
      requires !reorder.started && reorder.pending == map[] && reorder.expected == 0 && Tuned(reorder.View())
      requires AllProper(c, events) && AllClose(c, Started(c, tracker.maxRecent), events)
      modifies this`released, tracker, reorder
      ensures ok <==> AllReach(c, Started(c, tracker.maxRecent), events, old(Window()))
      ensures AllWithin(c, Started(c, tracker.maxRecent), events, old(Window())) || old(Window()) >= |c.sent| ==> ok
      ensures var log := LogAfter(Started(c, tracker.maxRecent), events);
              ok ==>
                && FirstMissing(Rec(c, log)) <= |c.sent| && released == c.sent[..FirstMissing(Rec(c, log))]
                && (released == c.sent <==> forall i: nat :: i < |c.sent| ==> Recoverable(c, log, i))
    {
      Start(c);
      ghost var log := Started(c, tracker.maxRecent);
      WindowSuffices(c, log, events, Window());
      ghost var held;
      ok, held := Follow(c, events, log, log.counted);
      if ok {
        WholeIff(c, LogAfter(log, events));
      }
    }
  }

  // ---------- The number of the first packet ----------

  /**
   A packet lost in the run of the first packet, of which all others arrive once, is rebuilt exactly
   if the number of the first packet does not lie between half the number space and the memory limit
   behind 0.
   */
  lemma FirstNumberDecides(c: Cast, limit: int, events: seq<Event>, r: nat, x: nat)
    requires Framed(c) && limit >= 0 && InRun(c, r, 0) && InRun(c, r, x) && x != 0
    requires Parity(r) in events && Data(0) !in events && Data(x) !in events
    requires forall j: nat :: InRun(c, r, j) && j != 0 && j != x ==> Data(j) in events
    ensures x in Rec(c, LogAfter(Started(c, limit), events)) <==> !(0x8000 < c.sent[0].seqNo < 0x1_0000 - limit)
  {
    var log := LogAfter(Started(c, limit), events);
    assert x < |c.sent| by {
      assert Shape(c, r);
    }
    assert TooOld(c.sent[0].seqNo, 0, limit) <==> 0x8000 < c.sent[0].seqNo < 0x1_0000 - limit;
    assert x !in log.arrived && (0 in log.counted <==> !TooOld(c.sent[0].seqNo, 0, limit));
    if 0 in log.counted {
      assert OthersIn(c, log.counted, r, x) && r in log.seen;
    } else if ByParity(c, log, x) {
      HasOthers(c, log, r, 0, x);
    }
  }

  /** In the least case a receiver that gets the first of two packets and their parity stops behind the first. */
  lemma FirstLossStays(c: Cast, limit: int, r: nat)
    requires Framed(c) && limit >= 0 && r < |c.runs| && c.runs[r] == (0, 2)
    ensures FirstMissing(Rec(c, LogAfter(Started(c, limit), [Parity(r)]))) == if 0x8000 < c.sent[0].seqNo < 0x1_0000 - limit then 1 else 2
  {
    var log := LogAfter(Started(c, limit), [Parity(r)]);
    FirstNumberDecides(c, limit, [Parity(r)], r, 1);
    assert 0 in log.arrived && 2 !in log.arrived;
    assert log.seen == {r} && !InRun(c, r, 2);
    RunEndIs(Rec(c, log), 0, if 1 in Rec(c, log) then 2 else 1);
  }
}
