/**
 A stream with parity runs, as the receiver's parity tracker sees it: what can be recovered from what
 came in, what the tracker holds of it, and how one data or one parity packet changes that. The stream
 may be of any length; numbers are told apart around the first missing packet.
 */
module ParityRuns {
  import opened Bytes
  import opened Seqs
  import opened Reorder
  import opened Fec

  /** What was sent: numbered data packets, and parity packets over runs of them. */
  datatype Cast = Cast(sent: seq<Ordered>, runs: seq<(nat, nat)>, fecs: seq<FecPayload>)

  predicate InRun(c: Cast, r: nat, i: nat) {
    r < |c.runs| && c.runs[r].0 <= i < c.runs[r].1
  }

  ghost predicate Numbered(c: Cast) {
    Consecutive(c.sent) && 0 < |c.sent| && forall i :: 0 <= i < |c.sent| ==> c.sent[i].payload != []
  }

  /** The parity packet speaks of the numbers of its run. */
  predicate Shape(c: Cast, r: nat) {
    && r < |c.runs| && r < |c.fecs|
    && c.runs[r].0 < c.runs[r].1 <= |c.sent| && c.runs[r].1 - c.runs[r].0 == |c.fecs[r].lengths| <= 255
    && c.fecs[r].baseSeq == c.sent[c.runs[r].0].seqNo
  }

  ghost predicate Disjoint(c: Cast) {
    forall r: nat, q: nat, i: nat :: InRun(c, r, i) && InRun(c, q, i) ==> r == q
  }

  /** Parity packets speak of disjoint runs. */
  ghost predicate Framed(c: Cast) {
    Numbered(c) && |c.fecs| == |c.runs| && Disjoint(c) && forall r: nat :: r < |c.runs| ==> Shape(c, r)
  }

  function Payloads(c: Cast, r: nat): (ps: seq<seq<byte>>)
    requires Shape(c, r)
    ensures |ps| == |c.fecs[r].lengths|
  {
    seq(c.runs[r].1 - c.runs[r].0, k requires 0 <= k < c.runs[r].1 - c.runs[r].0 => c.sent[c.runs[r].0 + k].payload)
  }

  ghost predicate Describes(c: Cast, r: nat) {
    && Shape(c, r) && Buildable(c.fecs[r].lengths, c.fecs[r].parity)
    && GroupOf(c.fecs[r]).WellFormed() && GroupOf(c.fecs[r]).Describes(Payloads(c, r))
  }

  /** Parity packets describe disjoint runs of what was sent. */
  ghost predicate Protected(c: Cast) {
    Framed(c) && forall r: nat :: r < |c.runs| ==> Describes(c, r)
  }

  // ---------- Numbers and indices ----------

  /** The number of the packet with this index. */
  function Number(c: Cast, i: nat): u16
    requires 0 < |c.sent|
  {
    (c.sent[0].seqNo + i) % 0x1_0000
  }

  lemma {:induction false} NumberIs(c: Cast, i: nat)
    requires Numbered(c) && i < |c.sent|
    ensures c.sent[i].seqNo == Number(c, i)
  {
    if i > 0 {
      NumberIs(c, i - 1);
      Successor16(c.sent[0].seqNo + (i - 1));
    }
  }

  lemma Successor16(n: nat)
    ensures Plus(n % 0x1_0000, 1) == (n + 1) % 0x1_0000
  {
  }

  lemma DueIs(c: Cast, m: nat)
    requires Numbered(c) && 0 < m <= |c.sent|
    ensures Due(c.sent, m) == Number(c, m)
  {
    NumberIs(c, m - 1);
    Successor16(c.sent[0].seqNo + (m - 1));
  }

  /** The distance of two numbers is that of the indices, up to a full cycle. */
  lemma DistanceIs(c: Cast, i: nat, j: nat)
    requires 0 < |c.sent| && -0x1_0000 < i - j < 0x1_0000
    ensures Distance(Number(c, i), Number(c, j)) == if i >= j then i - j else i - j + 0x1_0000
  {
    DistanceMod(c.sent[0].seqNo + i, c.sent[0].seqNo + j);
  }

  lemma DistanceMod(a: nat, b: nat)
    requires -0x1_0000 < a - b < 0x1_0000
    ensures Distance(a % 0x1_0000, b % 0x1_0000) == if a >= b then a - b else a - b + 0x1_0000
  {
  }

  const HALF := 0x8000
  const REACH := 0x7F00

  /** Seen from index m, the packet is near enough to be told by its number; in a short stream every packet is. */
  predicate Near(c: Cast, m: nat, i: int) {
    |c.sent| <= HALF || m - REACH < i < m + REACH
  }

  /** The index, seen from m, of the packet with this number; the length of the stream if there is none. */
  function Index(c: Cast, m: nat, s: u16): nat
    requires 0 < |c.sent|
  {
    var d := Distance(s, Number(c, m));
    if d < HALF then m + d else if m + d >= 0x1_0000 then m + d - 0x1_0000 else |c.sent|
  }

  /** What was sent, seen from m, under which number. */
  ghost function Truth(c: Cast, m: nat): map<u16, seq<byte>>
    requires 0 < |c.sent|
  {
    map s: u16 | Index(c, m, s) < |c.sent| && Near(c, m, Index(c, m, s)) :: c.sent[Index(c, m, s)].payload
  }

  lemma NumberOf(c: Cast, m: nat, i: nat)
    requires Numbered(c) && m <= |c.sent| && i < |c.sent| && Near(c, m, i)
    ensures Index(c, m, c.sent[i].seqNo) == i
    ensures c.sent[i].seqNo in Truth(c, m) && Truth(c, m)[c.sent[i].seqNo] == c.sent[i].payload
  {
    NumberIs(c, i);
    DistanceIs(c, i, m);
  }

  lemma IndexOf(c: Cast, m: nat, s: u16)
    requires Numbered(c) && m <= |c.sent| && s in Truth(c, m)
    ensures Index(c, m, s) < |c.sent| && Near(c, m, Index(c, m, s)) && c.sent[Index(c, m, s)].seqNo == s
    ensures Truth(c, m)[s] == c.sent[Index(c, m, s)].payload
  {
    var i := Index(c, m, s);
    NumberIs(c, i);
    DistanceIs(c, i, m);
    SameDistance(s, Number(c, i), Number(c, m));
  }

  lemma SameDistance(a: u16, b: u16, from: u16)
    requires Distance(a, from) == Distance(b, from)
    ensures a == b
  {
  }

  /** The group is one of the run, filled with some packets. */
  predicate OfRun(c: Cast, r: nat, g: Group) {
    r < |c.fecs| && g == GroupOf(c.fecs[r]).(data := g.data)
  }

  /** Seen from m, all of the run is near. */
  predicate RunNear(c: Cast, m: nat, r: nat) {
    r < |c.runs| && c.runs[r].0 < c.runs[r].1 && Near(c, m, c.runs[r].0) && Near(c, m, c.runs[r].1 - 1)
  }

  lemma RunAt(c: Cast, r: nat, i: nat, g: Group)
    requires Numbered(c) && Shape(c, r) && OfRun(c, r, g) && InRun(c, r, i)
    ensures i - c.runs[r].0 < |g.lengths| < 256 && g.At(i - c.runs[r].0) == c.sent[i].seqNo && g.Contains(c.sent[i].seqNo)
    ensures Distance(c.sent[i].seqNo, g.baseSeq) == i - c.runs[r].0
  {
    NumberIs(c, i);
    NumberIs(c, c.runs[r].0);
    DistanceIs(c, i, c.runs[r].0);
    PlusDistance(g.baseSeq, c.sent[i].seqNo);
  }

  lemma PlusDistance(a: u16, b: u16)
    ensures Plus(a, Distance(b, a)) == b
  {
  }

  lemma RunNumbers(c: Cast, m: nat, r: nat, i: nat, g: Group)
    requires Numbered(c) && Shape(c, r) && OfRun(c, r, g) && i < |c.sent| && Near(c, m, i) && RunNear(c, m, r)
    ensures g.Contains(c.sent[i].seqNo) <==> InRun(c, r, i)
  {
    NumberIs(c, i);
    NumberIs(c, c.runs[r].0);
    DistanceIs(c, i, c.runs[r].0);
  }

  lemma RunDistinct(c: Cast, r: nat, i: nat, j: nat)
    requires Numbered(c) && Shape(c, r) && InRun(c, r, i) && InRun(c, r, j) && c.sent[i].seqNo == c.sent[j].seqNo
    ensures i == j
  {
    RunAt(c, r, i, GroupOf(c.fecs[r]));
    RunAt(c, r, j, GroupOf(c.fecs[r]));
  }

  /** Seen from the first missing packet m, a packet is too old only if it lies further behind than the limit; in a long stream, exactly then. */
  lemma AgeOf(c: Cast, i: nat, m: nat, limit: int)
    requires Numbered(c) && i < |c.sent| && 0 < m <= |c.sent| && limit >= 0 && Near(c, m, i)
    ensures TooOld(c.sent[i].seqNo, Due(c.sent, m), limit) ==> i + limit < m
    ensures |c.sent| > HALF && i + limit < m ==> TooOld(c.sent[i].seqNo, Due(c.sent, m), limit)
  {
    NumberIs(c, i);
    DueIs(c, m);
    DistanceIs(c, m, i);
  }

  lemma LastNumber(c: Cast, r: nat, g: Group)
    requires Numbered(c) && Shape(c, r) && OfRun(c, r, g)
    ensures Last(g) == c.sent[c.runs[r].1 - 1].seqNo
  {
    RunAt(c, r, c.runs[r].1 - 1, g);
  }

  /** A group of a near run is genuine exactly if its packets are those of the run. */
  lemma RunIsGenuine(c: Cast, m: nat, r: nat, g: Group)
    requires Numbered(c) && m <= |c.sent| && Shape(c, r) && OfRun(c, r, g) && RunNear(c, m, r) && g.WellFormed()
    ensures GenuineGroup(g, Truth(c, m)) <==> g.Describes(Payloads(c, r))
  {
    var lo := c.runs[r].0;
    forall k: nat | k < |g.lengths|
      ensures g.At(k) in Truth(c, m) && Truth(c, m)[g.At(k)] == Payloads(c, r)[k]
    {
      RunAt(c, r, lo + k, g);
      NumberOf(c, m, lo + k);
    }
    assert PacketsOf(g, Truth(c, m)) == Payloads(c, r);
  }

  // ---------- Groups in terms of indices ----------

  ghost predicate Settled(c: Cast, known: set<nat>, r: nat) {
    forall i: nat :: InRun(c, r, i) ==> i in known
  }

  ghost predicate Lacks(c: Cast, known: set<nat>, r: nat, i: nat) {
    InRun(c, r, i) && i !in known
  }

  ghost predicate LacksOnly(c: Cast, known: set<nat>, r: nat, x: nat) {
    Lacks(c, known, r, x) && forall i: nat :: Lacks(c, known, r, i) ==> i == x
  }

  ghost predicate LacksTwo(c: Cast, known: set<nat>, r: nat) {
    exists a: nat, b: nat :: a != b && Lacks(c, known, r, a) && Lacks(c, known, r, b)
  }

  lemma HowMany(c: Cast, known: set<nat>, r: nat)
    ensures Settled(c, known, r) || LacksTwo(c, known, r) || exists x: nat :: LacksOnly(c, known, r, x)
  {
    if !Settled(c, known, r) {
      var x: nat :| InRun(c, r, x) && x !in known;
      assert Lacks(c, known, r, x);
      if y: nat :| Lacks(c, known, r, y) && y != x {
        assert LacksTwo(c, known, r);
      } else {
        assert LacksOnly(c, known, r, x);
      }
    }
  }

  /** The group holds exactly what is held of its run. */
  ghost predicate Fills(c: Cast, g: Group, held: set<nat>, r: nat) {
    OfRun(c, r, g) && forall i: nat :: InRun(c, r, i) && i < |c.sent| ==> (c.sent[i].seqNo in g.data <==> i in held)
  }

  /** The group holds nothing else of its run. */
  ghost predicate WithinHeld(c: Cast, g: Group, held: set<nat>, r: nat) {
    OfRun(c, r, g) && forall i: nat :: InRun(c, r, i) && i < |c.sent| && c.sent[i].seqNo in g.data ==> i in held
  }

  lemma MissingMeans(c: Cast, g: Group, held: set<nat>, r: nat, x: nat)
    requires Numbered(c) && Shape(c, r) && Fills(c, g, held, r) && g.WellFormed() && LacksOnly(c, held, r, x)
    ensures OnlyMissing(g, x - c.runs[r].0)
  {
    var lo := c.runs[r].0;
    RunAt(c, r, x, g);
    forall k | 0 <= k < |g.lengths| && k != x - lo
      ensures g.At(k) in g.data
    {
      RunAt(c, r, lo + k, g);
      assert !Lacks(c, held, r, lo + k);
    }
  }

  /** A packet missing alone from a group is one of the run, and all others of the run are held. */
  lemma OthersHeld(c: Cast, g: Group, held: set<nat>, r: nat, m: nat)
    requires Numbered(c) && Shape(c, r) && WithinHeld(c, g, held, r) && g.WellFormed() && OnlyMissing(g, m)
    ensures InRun(c, r, c.runs[r].0 + m) && g.At(m) == c.sent[c.runs[r].0 + m].seqNo && c.sent[c.runs[r].0 + m].seqNo !in g.data
    ensures OthersIn(c, held, r, c.runs[r].0 + m)
  {
    var lo := c.runs[r].0;
    RunAt(c, r, lo + m, g);
    forall i: nat | InRun(c, r, i) && i != lo + m
      ensures i in held
    {
      RunAt(c, r, i, g);
      assert g.At(i - lo) in g.data;
    }
  }

  /** All packets of the run but this one are in the set. */
  ghost predicate OthersIn(c: Cast, some: set<nat>, r: nat, i: nat) {
    forall j: nat :: InRun(c, r, j) && j != i ==> j in some
  }

  /** Offering packet i to a genuine group fills it accordingly. */
  lemma OfferFills(c: Cast, m: nat, g: Group, held: set<nat>, r: nat, i: nat, more: set<nat>)
    requires Numbered(c) && m <= |c.sent| && Shape(c, r) && RunNear(c, m, r) && OfRun(c, r, g) && GenuineGroup(g, Truth(c, m))
    requires InRun(c, r, i) && more == held + {i}
    ensures g.Contains(c.sent[i].seqNo) && |c.sent[i].payload| <= |g.parity|
    ensures Fills(c, g, held, r) ==> Fills(c, Offered(g, c.sent[i].seqNo, c.sent[i].payload), more, r)
    ensures WithinHeld(c, g, held, r) ==> WithinHeld(c, Offered(g, c.sent[i].seqNo, c.sent[i].payload), more, r)
  {
    RunAt(c, r, i, g);
    NumberOf(c, m, i);
    NoneIsEmpty(g, Truth(c, m), c.sent[i].seqNo);
    forall j: nat | InRun(c, r, j) && j < |c.sent|
      ensures c.sent[j].seqNo in Offered(g, c.sent[i].seqNo, c.sent[i].payload).data <==> j == i || c.sent[j].seqNo in g.data
    {
      if c.sent[j].seqNo == c.sent[i].seqNo {
        RunDistinct(c, r, i, j);
      }
    }
  }

  /** So it closes exactly when one packet of the run is then lacking. */
  lemma ClosesMeans(c: Cast, m: nat, g: Group, held: set<nat>, r: nat, i: nat, more: set<nat>)
    requires Numbered(c) && m <= |c.sent| && Shape(c, r) && RunNear(c, m, r) && Fills(c, g, held, r) && GenuineGroup(g, Truth(c, m))
    requires InRun(c, r, i) && more == held + {i}
    ensures Closes(g, c.sent[i].seqNo, c.sent[i].payload) <==> exists x: nat :: LacksOnly(c, more, r, x)
    ensures forall x: nat :: LacksOnly(c, more, r, x) ==> LeavesOnly(g, c.sent[i].seqNo, c.sent[i].payload, x - c.runs[r].0)
  {
    var s, payload := c.sent[i].seqNo, c.sent[i].payload;
    OfferFills(c, m, g, held, r, i, more);
    var g' := Offered(g, s, payload);
    LeavesOnlyMeans(g, s, payload, g');
    if Closes(g, s, payload) {
      var k: nat :| LeavesOnly(g, s, payload, k);
      OthersHeld(c, g', more, r, k);
      assert LacksOnly(c, more, r, c.runs[r].0 + k);
    }
    forall x: nat | LacksOnly(c, more, r, x)
      ensures LeavesOnly(g, s, payload, x - c.runs[r].0)
    {
      MissingMeans(c, g', more, r, x);
    }
  }

  // ---------- What can be known ----------

  /**
   What has come in: the data packets that arrived, those of them that the tracker took note of, and
   the runs whose parity arrived.
   */
  datatype Log = Log(arrived: set<nat>, counted: set<nat>, seen: set<nat>)

  ghost predicate Sane(c: Cast, log: Log) {
    && log.counted <= log.arrived && 0 in log.arrived
    && (forall i :: i in log.arrived ==> i < |c.sent|) && (forall r :: r in log.seen ==> r < |c.runs|)
  }

  /** The parity of its run arrived, and all others of the run were noted. */
  ghost predicate ByParity(c: Cast, log: Log, i: nat) {
    exists r :: r in log.seen && InRun(c, r, i) && OthersIn(c, log.counted, r, i)
  }

  ghost predicate Recoverable(c: Cast, log: Log, i: nat) {
    i in log.arrived || ByParity(c, log, i)
  }

  /** The packets that arrived or can be recovered. */
  ghost function Rec(c: Cast, log: Log): set<nat> {
    set i: nat | i < |c.sent| && Recoverable(c, log, i)
  }

  ghost predicate NoLess(log: Log, log': Log) {
    log.arrived <= log'.arrived && log.counted <= log'.counted && log.seen <= log'.seen
  }

  lemma ByParityGrows(c: Cast, log: Log, log': Log, i: nat)
    requires NoLess(log, log') && ByParity(c, log, i)
    ensures ByParity(c, log', i)
  {
    var r :| r in log.seen && InRun(c, r, i) && OthersIn(c, log.counted, r, i);
    assert OthersIn(c, log'.counted, r, i);
  }

  lemma RecGrows(c: Cast, log: Log, log': Log)
    requires NoLess(log, log')
    ensures Rec(c, log) <= Rec(c, log')
  {
    forall i | i in Rec(c, log)
      ensures i in Rec(c, log')
    {
      if i !in log.arrived {
        ByParityGrows(c, log, log', i);
      }
    }
  }

  // ---------- What the tracker holds ----------

  ghost predicate Noted(c: Cast, log: Log, i: nat) {
    i in log.counted || ByParity(c, log, i)
  }

  /** The tracker has had everything noted, and nothing but what was noted or rebuilt. */
  ghost predicate HeldRight(c: Cast, log: Log, held: set<nat>) {
    log.counted <= held && forall i :: i in held ==> i < |c.sent| && Noted(c, log, i)
  }

  lemma HeldIsRec(c: Cast, log: Log, held: set<nat>)
    requires HeldRight(c, log, held) && Sane(c, log)
    ensures held <= Rec(c, log)
  {
    forall i | i in held
      ensures i in Rec(c, log)
    {
      assert Noted(c, log, i);
    }
  }

  lemma HasOthers(c: Cast, log: Log, r: nat, j: nat, k: nat)
    requires Disjoint(c) && ByParity(c, log, k) && InRun(c, r, k) && InRun(c, r, j) && j != k
    ensures j in log.counted
  {
    var q :| q in log.seen && InRun(c, q, k) && OthersIn(c, log.counted, q, k);
    assert q == r;
  }

  /** A packet of a seen run is noted or can be recovered once all others of the run are held. */
  lemma RebuiltIsNoted(c: Cast, log: Log, held: set<nat>, r: nat, j: nat)
    requires Disjoint(c) && HeldRight(c, log, held) && r in log.seen && InRun(c, r, j) && OthersIn(c, held, r, j)
    ensures Noted(c, log, j)
  {
    if j !in log.counted {
      forall k: nat | InRun(c, r, k) && k != j
        ensures k in log.counted
      {
        assert Noted(c, log, k);
        if ByParity(c, log, k) {
          HasOthers(c, log, r, j, k);
        }
      }
      assert OthersIn(c, log.counted, r, j);
    }
  }

  /** The group of the run is open, holds what is held of it, and lacks at least two packets. */
  ghost predicate Open(c: Cast, groups: map<nat, Group>, held: set<nat>, r: nat) {
    r in groups && Fills(c, groups[r], held, r) && LacksTwo(c, held, r)
  }

  /** Every run whose parity came is complete, or open and lacking at least two packets. */
  ghost predicate Served(c: Cast, groups: map<nat, Group>, known: set<nat>, held: set<nat>, seen: set<nat>) {
    forall r :: r in seen ==> r < |c.runs| && (Settled(c, known, r) || Open(c, groups, held, r))
  }

  /** So everything that can be recovered is known. */
  lemma ServedIsRec(c: Cast, log: Log, groups: map<nat, Group>, known: set<nat>, held: set<nat>)
    requires Served(c, groups, known, held, log.seen) && log.arrived <= known && log.counted <= held
    ensures Rec(c, log) <= known
  {
    forall i | i in Rec(c, log)
      ensures i in known
    {
      if i !in log.arrived {
        var r :| r in log.seen && InRun(c, r, i) && OthersIn(c, log.counted, r, i);
        assert forall a: nat :: Lacks(c, held, r, a) ==> a == i;
        assert !LacksTwo(c, held, r);
      }
    }
  }

  /** The groups are those of seen runs near m, and hold nothing else. */
  ghost predicate GroupsRight(c: Cast, m: nat, groups: map<nat, Group>, held: set<nat>, seen: set<nat>) {
    forall k :: k in groups ==> k in seen && k < |c.runs| && WithinHeld(c, groups[k], held, k) && RunNear(c, m, k)
  }

  /** It remembers only held packets, and those of them that are not too old. */
  ghost predicate Remembers(c: Cast, m: nat, recent: set<u16>, held: set<nat>, limit: int)
    requires 0 < |c.sent|
  {
    && (forall s :: s in recent ==> s in Truth(c, m) && Index(c, m, s) in held)
    && (forall i: nat :: i in held && i < |c.sent| && i + limit >= m ==> c.sent[i].seqNo in recent)
  }

  /** In a long stream nothing that the tracker has lies further behind than this. */
  ghost predicate Spread(c: Cast, m: nat, recent: set<u16>, groups: set<nat>, back: int)
    requires 0 < |c.sent|
  {
    |c.sent| > HALF ==>
      && (forall s :: s in recent ==> Index(c, m, s) + back >= m)
      && (forall k :: k in groups && k < |c.runs| ==> c.runs[k].1 - 1 + back >= m)
  }

  /** The indices of recovered packets. */
  ghost function IndicesOf(c: Cast, m: nat, rs: seq<Recovered>): set<nat>
    requires 0 < |c.sent|
  {
    set r | r in rs && r.Recovered? :: Index(c, m, r.seqNo)
  }

  /** A run that lacks a packet is never too old. */
  lemma RunStays(c: Cast, g: Group, known: set<nat>, r: nat, x: nat, m: nat, limit: int)
    requires Numbered(c) && Shape(c, r) && OfRun(c, r, g) && Lacks(c, known, r, x) && limit >= 0 && RunNear(c, m, r)
    requires 0 < m <= |c.sent| && forall i: nat :: i < m ==> i in known
    ensures !TooOld(Last(g), Due(c.sent, m), limit)
  {
    var last := c.runs[r].1 - 1;
    LastNumber(c, r, g);
    AgeOf(c, last, m, limit);
    assert m <= x;
  }

  // ---------- A data packet ----------

  /** What the tracker promises when it is given data packet i. */
  ghost predicate Fed(c: Cast, m: nat, groups: map<nat, Group>, i: nat, recovered: seq<Recovered>)
    requires 0 < |c.sent| && i < |c.sent|
  {
    var s, payload := c.sent[i].seqNo, c.sent[i].payload;
    && GenuineResults(recovered, Truth(c, m))
    && RebuiltBut(groups, {}, s, payload, Truth(c, m), recovered)
    && FromClosed(groups, s, payload, recovered)
  }

  /** A recovered packet is another one of the run of the packet that arrived, and the only one of it not held. */
  lemma RecoveredInRun(c: Cast, m: nat, groups: map<nat, Group>, held: set<nat>, seen: set<nat>, i: nat, recovered: seq<Recovered>,
                       j: nat, more: set<nat>) returns (r: nat, k: nat)
    requires Framed(c) && m <= |c.sent| && GroupsRight(c, m, groups, held, seen) && GenuineGroups(groups, Truth(c, m))
    requires i < |c.sent| && Near(c, m, i) && Fed(c, m, groups, i, recovered) && j in IndicesOf(c, m, recovered) && more == held + {i}
    ensures r in groups && InRun(c, r, i) && InRun(c, r, j) && j != i && j < |c.sent| && Near(c, m, j)
    ensures OthersIn(c, more, r, j) && j == c.runs[r].0 + k && LeavesOnly(groups[r], c.sent[i].seqNo, c.sent[i].payload, k)
  {
    r, k := RecoveredFrom(c, m, groups, i, recovered, j);
    LeftMeans(c, m, groups[r], held, r, i, more, k);
  }

  lemma RecoveredFrom(c: Cast, m: nat, groups: map<nat, Group>, i: nat, recovered: seq<Recovered>, j: nat) returns (r: nat, k: nat)
    requires 0 < |c.sent| && i < |c.sent| && Fed(c, m, groups, i, recovered) && j in IndicesOf(c, m, recovered)
    ensures r in groups && LeavesOnly(groups[r], c.sent[i].seqNo, c.sent[i].payload, k) && Index(c, m, groups[r].At(k)) == j
  {
    var rec :| rec in recovered && rec.Recovered? && Index(c, m, rec.seqNo) == j;
    r :| r in groups && LeftBy(groups[r], c.sent[i].seqNo, c.sent[i].payload, rec);
    k :| LeavesOnly(groups[r], c.sent[i].seqNo, c.sent[i].payload, k) && rec.seqNo == groups[r].At(k);
  }

  lemma LeftMeans(c: Cast, m: nat, g: Group, held: set<nat>, r: nat, i: nat, more: set<nat>, k: nat)
    requires Numbered(c) && m <= |c.sent| && Shape(c, r) && RunNear(c, m, r) && WithinHeld(c, g, held, r) && GenuineGroup(g, Truth(c, m))
    requires i < |c.sent| && Near(c, m, i) && more == held + {i} && LeavesOnly(g, c.sent[i].seqNo, c.sent[i].payload, k)
    ensures var j := c.runs[r].0 + k;
            && InRun(c, r, i) && InRun(c, r, j) && j != i && OthersIn(c, more, r, j)
            && Near(c, m, j) && Index(c, m, g.At(k)) == j
  {
    var s, payload, g' := c.sent[i].seqNo, c.sent[i].payload, Offered(g, c.sent[i].seqNo, c.sent[i].payload);
    RunNumbers(c, m, r, i, g);
    OfferFills(c, m, g, held, r, i, more);
    LeavesOnlyMeans(g, s, payload, g');
    OnlyOneLeft(c, m, g', more, r, i, k);
  }

  lemma OnlyOneLeft(c: Cast, m: nat, g: Group, held: set<nat>, r: nat, i: nat, k: nat)
    requires Numbered(c) && m <= |c.sent| && Shape(c, r) && RunNear(c, m, r) && WithinHeld(c, g, held, r) && g.WellFormed()
    requires InRun(c, r, i) && c.sent[i].seqNo in g.data && OnlyMissing(g, k)
    ensures var j := c.runs[r].0 + k;
            && InRun(c, r, j) && j != i && OthersIn(c, held, r, j)
            && Near(c, m, j) && Index(c, m, g.At(k)) == j
  {
    OthersHeld(c, g, held, r, k);
    NumberOf(c, m, c.runs[r].0 + k);
  }

  /** All results are one and the same packet. */
  lemma OneIsBack(c: Cast, m: nat, groups: map<nat, Group>, held: set<nat>, seen: set<nat>, i: nat, recovered: seq<Recovered>)
    requires Framed(c) && m <= |c.sent| && GroupsRight(c, m, groups, held, seen) && GenuineGroups(groups, Truth(c, m))
    requires i < |c.sent| && Near(c, m, i) && Fed(c, m, groups, i, recovered)
    ensures i !in IndicesOf(c, m, recovered) && AtMostOne(IndicesOf(c, m, recovered))
  {
    forall j | j in IndicesOf(c, m, recovered)
      ensures j != i
    {
      var q, k := RecoveredInRun(c, m, groups, held, seen, i, recovered, j, held + {i});
    }
    forall j, k | j in IndicesOf(c, m, recovered) && k in IndicesOf(c, m, recovered)
      ensures j == k
    {
      var q, a := RecoveredInRun(c, m, groups, held, seen, i, recovered, j, held + {i});
      var r, b := RecoveredInRun(c, m, groups, held, seen, i, recovered, k, held + {i});
      assert q == r;
    }
  }

  ghost predicate AtMostOne(indices: set<nat>) {
    forall j, k :: j in indices && k in indices ==> j == k
  }

  /** A closing group completes its run. */
  lemma ClosingSettles(c: Cast, m: nat, g: Group, held: set<nat>, r: nat, i: nat, recovered: seq<Recovered>, held': set<nat>)
    requires Numbered(c) && m <= |c.sent| && Shape(c, r) && RunNear(c, m, r) && Fills(c, g, held, r) && GenuineGroup(g, Truth(c, m))
    requires InRun(c, r, i) && Rebuilt(g, c.sent[i].seqNo, c.sent[i].payload, Truth(c, m), recovered)
    requires Closes(g, c.sent[i].seqNo, c.sent[i].payload)
    requires held' == held + {i} + IndicesOf(c, m, recovered)
    ensures Settled(c, held', r)
  {
    var s, payload, more := c.sent[i].seqNo, c.sent[i].payload, held + {i};
    ClosesMeans(c, m, g, held, r, i, more);
    var x: nat :| LacksOnly(c, more, r, x);
    LastIsBack(c, m, g, r, i, x, recovered);
    assert forall j: nat :: InRun(c, r, j) && j != x ==> !Lacks(c, more, r, j);
  }

  lemma LastIsBack(c: Cast, m: nat, g: Group, r: nat, i: nat, x: nat, recovered: seq<Recovered>)
    requires Numbered(c) && m <= |c.sent| && Shape(c, r) && RunNear(c, m, r) && OfRun(c, r, g) && InRun(c, r, i) && InRun(c, r, x)
    requires Rebuilt(g, c.sent[i].seqNo, c.sent[i].payload, Truth(c, m), recovered)
    requires LeavesOnly(g, c.sent[i].seqNo, c.sent[i].payload, x - c.runs[r].0)
    ensures x in IndicesOf(c, m, recovered)
  {
    RunAt(c, r, x, g);
    NumberOf(c, m, x);
    assert Recovered(c.sent[x].seqNo, Truth(c, m)[c.sent[x].seqNo]) in recovered;
  }

  /** A group that contains the packet and does not close still lacks two. */
  lemma StillLacksTwo(c: Cast, m: nat, g: Group, held: set<nat>, r: nat, i: nat, more: set<nat>)
    requires Numbered(c) && m <= |c.sent| && Shape(c, r) && RunNear(c, m, r) && Fills(c, g, held, r) && GenuineGroup(g, Truth(c, m))
    requires LacksTwo(c, held, r) && InRun(c, r, i) && more == held + {i} && !Closes(g, c.sent[i].seqNo, c.sent[i].payload)
    ensures LacksTwo(c, more, r)
  {
    ClosesMeans(c, m, g, held, r, i, more);
    HowMany(c, more, r);
    var a: nat, b: nat :| a != b && Lacks(c, held, r, a) && Lacks(c, held, r, b);
    var x := if i == a then b else a;
    assert Lacks(c, more, r, x);
  }

  lemma SameRun(c: Cast, g: Group, held: set<nat>, r: nat, held': set<nat>)
    requires Fills(c, g, held, r) && LacksTwo(c, held, r) && forall j: nat :: InRun(c, r, j) ==> (j in held' <==> j in held)
    ensures Fills(c, g, held', r) && LacksTwo(c, held', r)
  {
    var a: nat, b: nat :| a != b && Lacks(c, held, r, a) && Lacks(c, held, r, b);
    assert Lacks(c, held', r, a) && Lacks(c, held', r, b);
  }

  lemma StaysOpen(c: Cast, m: nat, g: Group, held: set<nat>, r: nat, i: nat, g': Group, held': set<nat>)
    requires Numbered(c) && m <= |c.sent| && Shape(c, r) && RunNear(c, m, r) && Fills(c, g, held, r) && GenuineGroup(g, Truth(c, m))
    requires LacksTwo(c, held, r) && i < |c.sent| && Near(c, m, i)
    requires !Closes(g, c.sent[i].seqNo, c.sent[i].payload) && g' == Offered(g, c.sent[i].seqNo, c.sent[i].payload)
    requires i in held' && forall j: nat :: InRun(c, r, j) && j != i ==> (j in held' <==> j in held)
    ensures Fills(c, g', held', r) && LacksTwo(c, held', r)
  {
    RunNumbers(c, m, r, i, g);
    if InRun(c, r, i) {
      var more := held + {i};
      OfferFills(c, m, g, held, r, i, more);
      StillLacksTwo(c, m, g, held, r, i, more);
      SameRun(c, g', more, r, held');
    } else {
      SameRun(c, g, held, r, held');
    }
  }

  lemma NothingElse(c: Cast, m: nat, groups: map<nat, Group>, held: set<nat>, seen: set<nat>, r: nat, i: nat, recovered: seq<Recovered>,
                    held': set<nat>)
    requires Framed(c) && m <= |c.sent| && GroupsRight(c, m, groups, held, seen) && GenuineGroups(groups, Truth(c, m))
    requires i < |c.sent| && Near(c, m, i) && Fed(c, m, groups, i, recovered)
    requires r in groups && !Closes(groups[r], c.sent[i].seqNo, c.sent[i].payload)
    requires held' == held + {i} + IndicesOf(c, m, recovered)
    ensures forall j: nat :: InRun(c, r, j) && j != i ==> (j in held' <==> j in held)
  {
    forall j: nat | InRun(c, r, j) && j != i
      ensures j in held' <==> j in held
    {
      if j in IndicesOf(c, m, recovered) {
        var q, k := RecoveredInRun(c, m, groups, held, seen, i, recovered, j, held + {i});
      }
    }
  }

  lemma OfferedStays(c: Cast, m: nat, groups: map<nat, Group>, known: set<nat>, held: set<nat>, r: nat, i: nat,
                     groups': map<nat, Group>, held': set<nat>, limit: int)
    requires Numbered(c) && Shape(c, r) && RunNear(c, m, r) && Open(c, groups, held, r) && GenuineGroup(groups[r], Truth(c, m))
    requires i < |c.sent| && Near(c, m, i) && !Settled(c, known, r)
    requires !Closes(groups[r], c.sent[i].seqNo, c.sent[i].payload)
    requires 0 < m <= |c.sent| && (forall j: nat :: j < m ==> j in known) && limit >= 0
    requires groups' == TrimmedGroups(OfferedGroups(groups, c.sent[i].seqNo, c.sent[i].payload), Due(c.sent, m), limit)
    requires i in held' && forall j: nat :: InRun(c, r, j) && j != i ==> (j in held' <==> j in held)
    ensures Open(c, groups', held', r)
  {
    var g, g' := groups[r], Offered(groups[r], c.sent[i].seqNo, c.sent[i].payload);
    StaysOpen(c, m, g, held, r, i, g', held');
    var x: nat :| InRun(c, r, x) && x !in known;
    RunStays(c, g', known, r, x, m, limit);
  }

  lemma ClosedServes(c: Cast, m: nat, groups: map<nat, Group>, held: set<nat>, seen: set<nat>, r: nat, i: nat, recovered: seq<Recovered>,
                     held': set<nat>)
    requires Framed(c) && m <= |c.sent| && GroupsRight(c, m, groups, held, seen) && GenuineGroups(groups, Truth(c, m))
    requires i < |c.sent| && Near(c, m, i) && Fed(c, m, groups, i, recovered)
    requires r in groups && Fills(c, groups[r], held, r) && Closes(groups[r], c.sent[i].seqNo, c.sent[i].payload)
    requires held' == held + {i} + IndicesOf(c, m, recovered)
    ensures Settled(c, held', r)
  {
    RunNumbers(c, m, r, i, groups[r]);
    ClosingSettles(c, m, groups[r], held, r, i, recovered, held');
  }

  lemma DataServesRun(c: Cast, m: nat, groups: map<nat, Group>, known: set<nat>, held: set<nat>, seen: set<nat>, r: nat, i: nat,
                      recovered: seq<Recovered>, groups': map<nat, Group>, known': set<nat>, held': set<nat>, limit: int)
    requires Framed(c) && GroupsRight(c, m, groups, held, seen) && GenuineGroups(groups, Truth(c, m)) && held <= known
    requires i < |c.sent| && Near(c, m, i) && Fed(c, m, groups, i, recovered)
    requires r < |c.runs| && (Settled(c, known, r) || Open(c, groups, held, r))
    requires 0 < m <= |c.sent| && (forall j: nat :: j < m ==> j in known) && limit >= 0
    requires groups' == TrimmedGroups(OfferedGroups(groups, c.sent[i].seqNo, c.sent[i].payload), Due(c.sent, m), limit)
    requires known' == known + {i} + IndicesOf(c, m, recovered) && held' == held + {i} + IndicesOf(c, m, recovered)
    ensures Settled(c, known', r) || Open(c, groups', held', r)
  {
    if !Settled(c, known, r) {
      if Closes(groups[r], c.sent[i].seqNo, c.sent[i].payload) {
        ClosedServes(c, m, groups, held, seen, r, i, recovered, held');
      } else {
        NothingElse(c, m, groups, held, seen, r, i, recovered, held');
        OfferedStays(c, m, groups, known, held, r, i, groups', held', limit);
      }
    }
  }

  lemma DataServes(c: Cast, m: nat, groups: map<nat, Group>, known: set<nat>, held: set<nat>, seen: set<nat>, i: nat,
                   recovered: seq<Recovered>, groups': map<nat, Group>, known': set<nat>, held': set<nat>, limit: int)
    requires Framed(c) && GroupsRight(c, m, groups, held, seen) && GenuineGroups(groups, Truth(c, m)) && held <= known
    requires i < |c.sent| && Near(c, m, i) && Fed(c, m, groups, i, recovered) && Served(c, groups, known, held, seen)
    requires 0 < m <= |c.sent| && (forall j: nat :: j < m ==> j in known) && limit >= 0
    requires groups' == TrimmedGroups(OfferedGroups(groups, c.sent[i].seqNo, c.sent[i].payload), Due(c.sent, m), limit)
    requires known' == known + {i} + IndicesOf(c, m, recovered) && held' == held + {i} + IndicesOf(c, m, recovered)
    ensures Served(c, groups', known', held', seen)
  {
    forall r | r in seen
      ensures r < |c.runs| && (Settled(c, known', r) || Open(c, groups', held', r))
    {
      DataServesRun(c, m, groups, known, held, seen, r, i, recovered, groups', known', held', limit);
    }
  }

  /** The groups are still those of seen runs, hold nothing else, and none is too old. */
  lemma OfferedRight(c: Cast, m: nat, groups: map<nat, Group>, held: set<nat>, seen: set<nat>, i: nat,
                     groups': map<nat, Group>, more: set<nat>, limit: int)
    requires Framed(c) && GroupsRight(c, m, groups, held, seen) && GenuineGroups(groups, Truth(c, m))
    requires i < |c.sent| && Near(c, m, i) && 0 < m <= |c.sent| && held + {i} <= more
    requires groups' == TrimmedGroups(OfferedGroups(groups, c.sent[i].seqNo, c.sent[i].payload), Due(c.sent, m), limit)
    ensures GroupsRight(c, m, groups', more, seen)
  {
    forall k | k in groups'
      ensures WithinHeld(c, groups'[k], more, k)
    {
      RunNumbers(c, m, k, i, groups[k]);
      if InRun(c, k, i) {
        OfferFills(c, m, groups[k], held, k, i, held + {i});
      }
    }
  }

  // ---------- What the tracker remembers ----------

  ghost function NumbersOf(c: Cast, indices: set<nat>): set<u16> {
    set i | i in indices && i < |c.sent| :: c.sent[i].seqNo
  }

  lemma RemembersMore(c: Cast, m: nat, recent: set<u16>, held: set<nat>, limit: int, fed: set<nat>, recovered: seq<Recovered>,
                      recent': set<u16>, held': set<nat>)
    requires Numbered(c) && Remembers(c, m, recent, held, limit) && 0 < m <= |c.sent| && limit >= 0
    requires (forall i :: i in fed ==> i < |c.sent| && Near(c, m, i)) && GenuineResults(recovered, Truth(c, m))
    requires held' == held + fed + IndicesOf(c, m, recovered)
    requires Keeps(recent', recent + NumbersOf(c, fed), recovered, Due(c.sent, m), limit)
    requires forall i :: i in held && i + limit >= m ==> i < |c.sent| && Near(c, m, i)
    ensures Remembers(c, m, recent', held', limit)
  {
    forall s | s in recent'
      ensures s in Truth(c, m) && Index(c, m, s) in held'
    {
      if s in NumbersOf(c, fed) {
        var i :| i in fed && i < |c.sent| && s == c.sent[i].seqNo;
        NumberOf(c, m, i);
      } else if s !in recent {
        var r :| r in recovered && r.Recovered? && r.seqNo == s;
        assert Index(c, m, s) in IndicesOf(c, m, recovered);
      }
    }
    forall i: nat | i in held' && i < |c.sent| && i + limit >= m
      ensures c.sent[i].seqNo in recent'
    {
      if i in fed {
        assert c.sent[i].seqNo in NumbersOf(c, fed);
      } else if i !in held {
        var r :| r in recovered && r.Recovered? && Index(c, m, r.seqNo) == i;
        IndexOf(c, m, r.seqNo);
        assert Among(c.sent[i].seqNo, recovered);
      }
      AgeOf(c, i, m, limit);
    }
  }

  /** After trimming nothing lies further behind than the limit. */
  lemma TrimSpreads(c: Cast, m: nat, recent: set<u16>, numbers: set<u16>, recovered: seq<Recovered>, groups: map<nat, Group>, held: set<nat>,
                    seen: set<nat>, all: map<nat, Group>, limit: int)
    requires Framed(c) && 0 < m <= |c.sent| && limit >= 0 && Keeps(recent, numbers, recovered, Due(c.sent, m), limit)
    requires (forall s :: s in recent ==> s in Truth(c, m)) && groups == TrimmedGroups(all, Due(c.sent, m), limit)
    requires GroupsRight(c, m, groups, held, seen)
    ensures Spread(c, m, recent, groups.Keys, limit)
  {
    if |c.sent| > HALF {
      forall s | s in recent
        ensures Index(c, m, s) + limit >= m
      {
        IndexOf(c, m, s);
        AgeOf(c, Index(c, m, s), m, limit);
      }
      forall k | k in groups
        ensures c.runs[k].1 - 1 + limit >= m
      {
        LastNumber(c, k, groups[k]);
        AgeOf(c, c.runs[k].1 - 1, m, limit);
      }
    }
  }

  /** The window and the memory of the receiver together are small against the number space; a short stream needs nothing. */
  predicate Roomy(c: Cast, limit: int, window: int) {
    |c.sent| <= HALF || 2 * limit + 2 * window + 2 < REACH
  }

  /** Seen from a later packet m', what the tracker has is still told by its numbers. */
  lemma RebaseRecent(c: Cast, m: nat, m': nat, recent: map<u16, seq<byte>>, held: set<nat>, limit: int, window: int)
    requires Numbered(c) && 0 < m <= m' <= |c.sent| && m' <= m + 2 * window + 2 && limit >= 0 && window >= 0 && Roomy(c, limit, window)
    requires Remembers(c, m, recent.Keys, held, limit) && GenuineData(recent, Truth(c, m)) && Spread(c, m, recent.Keys, {}, limit)
    ensures Remembers(c, m', recent.Keys, held, limit) && GenuineData(recent, Truth(c, m'))
    ensures Spread(c, m', recent.Keys, {}, limit + 2 * window + 2)
  {
    forall s | s in recent
      ensures s in Truth(c, m') && recent[s] == Truth(c, m')[s] && Index(c, m', s) == Index(c, m, s)
    {
      IndexOf(c, m, s);
      NumberOf(c, m', Index(c, m, s));
    }
  }

  lemma RebaseGroups(c: Cast, m: nat, m': nat, groups: map<nat, Group>, held: set<nat>, seen: set<nat>, limit: int, window: int)
    requires Framed(c) && 0 < m <= m' <= |c.sent| && m' <= m + 2 * window + 2 && limit >= 0 && window >= 0 && Roomy(c, limit, window)
    requires GroupsRight(c, m, groups, held, seen) && GenuineGroups(groups, Truth(c, m)) && Spread(c, m, {}, groups.Keys, limit)
    requires SmallRuns(c, limit)
    ensures GroupsRight(c, m', groups, held, seen) && GenuineGroups(groups, Truth(c, m'))
    ensures Spread(c, m', {}, groups.Keys, limit + 2 * window + 2)
  {
    forall k | k in groups
      ensures RunNear(c, m', k) && GenuineGroup(groups[k], Truth(c, m'))
    {
      assert Shape(c, k);
      assert RunNear(c, m', k);
      RunIsGenuine(c, m, k, groups[k]);
      RunIsGenuine(c, m', k, groups[k]);
    }
  }

  /** No run is longer than the tracker looks back. */
  predicate SmallRuns(c: Cast, limit: int) {
    forall r :: 0 <= r < |c.fecs| ==> |c.fecs[r].lengths| <= limit
  }

  // ---------- A parity packet ----------

  /** Of this run exactly the held packets are remembered. */
  ghost predicate Agrees(c: Cast, recent: map<u16, seq<byte>>, held: set<nat>, r: nat) {
    forall j: nat :: InRun(c, r, j) && j < |c.sent| ==> (c.sent[j].seqNo in recent <==> j in held)
  }

  lemma UnsettledAgrees(c: Cast, m: nat, recent: map<u16, seq<byte>>, known: set<nat>, held: set<nat>, r: nat, limit: int)
    requires Numbered(c) && m <= |c.sent| && Shape(c, r) && RunNear(c, m, r) && Remembers(c, m, recent.Keys, held, limit)
    requires |c.fecs[r].lengths| <= limit && !Settled(c, known, r) && forall i: nat :: i < m ==> i in known
    ensures Agrees(c, recent, held, r)
  {
    var x: nat :| InRun(c, r, x) && x !in known;
    assert m <= x;
    forall j: nat | InRun(c, r, j) && j < |c.sent|
      ensures c.sent[j].seqNo in recent <==> j in held
    {
      NumberOf(c, m, j);
    }
  }

  /** The group of a parity packet holds what is remembered of its run. */
  lemma CollectedHolds(c: Cast, m: nat, recent: map<u16, seq<byte>>, held: set<nat>, r: nat, limit: int)
    requires Numbered(c) && m <= |c.sent| && Shape(c, r) && RunNear(c, m, r) && Remembers(c, m, recent.Keys, held, limit)
    requires GenuineGroup(GroupOf(c.fecs[r]), Truth(c, m)) && GenuineData(recent, Truth(c, m))
    ensures WithinHeld(c, Collected(c.fecs[r], recent), held, r)
    ensures Agrees(c, recent, held, r) ==> Fills(c, Collected(c.fecs[r], recent), held, r)
  {
    var f, g := c.fecs[r], Collected(c.fecs[r], recent);
    MatchingGenuine(f, recent, |f.lengths|, Truth(c, m));
    forall j: nat | InRun(c, r, j) && j < |c.sent|
      ensures c.sent[j].seqNo in g.data <==> c.sent[j].seqNo in recent
      ensures c.sent[j].seqNo in recent ==> j in held
    {
      RunAt(c, r, j, g);
      NumberOf(c, m, j);
    }
  }

  /** What the tracker promises when it is given parity packet r. */
  ghost predicate FedParity(c: Cast, m: nat, recent: map<u16, seq<byte>>, r: nat, recovered: seq<Recovered>)
    requires 0 < |c.sent| && r < |c.fecs|
  {
    && GenuineResults(recovered, Truth(c, m))
    && (forall x: nat :: OnlyAbsent(c.fecs[r], recent, x) ==>
          var lost := GroupOf(c.fecs[r]).At(x);
          lost in Truth(c, m) && recovered == [Recovered(lost, Truth(c, m)[lost])])
    && (recovered != [] ==> exists x: nat :: OnlyAbsent(c.fecs[r], recent, x))
  }

  /** A packet alone absent from the memory is one of the run, and all others of the run are held. */
  lemma AbsentMeans(c: Cast, m: nat, recent: map<u16, seq<byte>>, held: set<nat>, r: nat, x: nat, limit: int)
    requires Numbered(c) && m <= |c.sent| && Shape(c, r) && RunNear(c, m, r) && Remembers(c, m, recent.Keys, held, limit)
    requires OnlyAbsent(c.fecs[r], recent, x)
    ensures var j := c.runs[r].0 + x;
            && InRun(c, r, j) && OthersIn(c, held, r, j) && c.sent[j].seqNo !in recent
            && GroupOf(c.fecs[r]).At(x) == c.sent[j].seqNo && Index(c, m, c.sent[j].seqNo) == j && Near(c, m, j)
  {
    var f, lo, g := c.fecs[r], c.runs[r].0, GroupOf(c.fecs[r]);
    RunAt(c, r, lo + x, g);
    NumberOf(c, m, lo + x);
    forall i: nat | InRun(c, r, i) && i != lo + x
      ensures i in held
    {
      RunAt(c, r, i, g);
      NumberOf(c, m, i);
      assert Plus(f.baseSeq, i - lo) in recent;
    }
  }

  lemma LacksMeans(c: Cast, recent: map<u16, seq<byte>>, held: set<nat>, r: nat, y: nat)
    requires Numbered(c) && Shape(c, r) && Agrees(c, recent, held, r) && LacksOnly(c, held, r, y)
    ensures OnlyAbsent(c.fecs[r], recent, y - c.runs[r].0)
  {
    var f, lo, g := c.fecs[r], c.runs[r].0, GroupOf(c.fecs[r]);
    RunAt(c, r, y, g);
    forall k: nat | k < |f.lengths| && k != y - lo
      ensures Plus(f.baseSeq, k) in recent
    {
      RunAt(c, r, lo + k, g);
      assert !Lacks(c, held, r, lo + k);
    }
  }

  /** The recovered packet, if any, is one of the run of the parity packet, and all others of the run are held. */
  lemma RecoveredOfParity(c: Cast, m: nat, recent: map<u16, seq<byte>>, held: set<nat>, r: nat, recovered: seq<Recovered>, j: nat, limit: int)
    requires Numbered(c) && m <= |c.sent| && Shape(c, r) && RunNear(c, m, r) && Remembers(c, m, recent.Keys, held, limit)
    requires FedParity(c, m, recent, r, recovered) && j in IndicesOf(c, m, recovered)
    ensures InRun(c, r, j) && OthersIn(c, held, r, j) && Near(c, m, j) && IndicesOf(c, m, recovered) == {j}
  {
    var x: nat :| OnlyAbsent(c.fecs[r], recent, x);
    AbsentMeans(c, m, recent, held, r, x, limit);
    OneIndex(c, m, recovered[0]);
  }

  lemma OneIndex(c: Cast, m: nat, r: Recovered)
    requires 0 < |c.sent| && r.Recovered?
    ensures IndicesOf(c, m, [r]) == {Index(c, m, r.seqNo)}
  {
  }

  lemma ParityServesOther(c: Cast, m: nat, groups: map<nat, Group>, known: set<nat>, held: set<nat>, r: nat, q: nat, back: set<nat>,
                          all: map<nat, Group>, known': set<nat>, held': set<nat>, limit: int)
    requires Numbered(c) && Disjoint(c) && Shape(c, q) && forall j :: j in back ==> InRun(c, r, j)
    requires q != r && (Settled(c, known, q) || (Open(c, groups, held, q) && RunNear(c, m, q)))
    requires 0 < m <= |c.sent| && (forall j: nat :: j < m ==> j in known) && limit >= 0
    requires q in groups ==> q in all && all[q] == groups[q]
    requires known' == known + back && held' == held + back
    ensures Settled(c, known', q) || Open(c, TrimmedGroups(all, Due(c.sent, m), limit), held', q)
  {
    if !Settled(c, known, q) {
      SameRun(c, groups[q], held, q, held');
      var x: nat :| InRun(c, q, x) && x !in known;
      RunStays(c, groups[q], known, q, x, m, limit);
    }
  }

  /** The parity packet brings back the one packet of its run that is lacking. */
  lemma ParityBack(c: Cast, m: nat, recent: map<u16, seq<byte>>, known: set<nat>, held: set<nat>, r: nat, recovered: seq<Recovered>,
                   known': set<nat>, limit: int)
    requires Numbered(c) && m <= |c.sent| && Shape(c, r) && RunNear(c, m, r) && FedParity(c, m, recent, r, recovered)
    requires Remembers(c, m, recent.Keys, held, limit) && held <= known && recovered != []
    requires known' == known + IndicesOf(c, m, recovered)
    ensures Settled(c, known', r)
  {
    var x: nat :| OnlyAbsent(c.fecs[r], recent, x);
    AbsentMeans(c, m, recent, held, r, x, limit);
    assert recovered[0] in recovered;
    assert c.runs[r].0 + x in IndicesOf(c, m, recovered);
  }

  /** If it brings nothing back, at least two are lacking. */
  lemma ParityWaits(c: Cast, m: nat, recent: map<u16, seq<byte>>, held: set<nat>, r: nat)
    requires Numbered(c) && m <= |c.sent| && Shape(c, r) && FedParity(c, m, recent, r, []) && Agrees(c, recent, held, r)
    requires !Settled(c, held, r)
    ensures LacksTwo(c, held, r)
  {
    HowMany(c, held, r);
    forall y: nat
      ensures !LacksOnly(c, held, r, y)
    {
      if LacksOnly(c, held, r, y) {
        LacksMeans(c, recent, held, r, y);
      }
    }
  }

  lemma ParityServesOwn(c: Cast, m: nat, recent: map<u16, seq<byte>>, known: set<nat>, held: set<nat>, r: nat, recovered: seq<Recovered>,
                        all: map<nat, Group>, known': set<nat>, held': set<nat>, limit: int)
    requires Numbered(c) && Shape(c, r) && RunNear(c, m, r) && FedParity(c, m, recent, r, recovered) && Remembers(c, m, recent.Keys, held, limit)
    requires Agrees(c, recent, held, r) && held <= known && !Settled(c, known, r)
    requires recovered == [] ==> r in all && Fills(c, all[r], held, r)
    requires 0 < m <= |c.sent| && (forall j: nat :: j < m ==> j in known) && limit >= 0
    requires known' == known + IndicesOf(c, m, recovered) && held' == held + IndicesOf(c, m, recovered)
    ensures Settled(c, known', r) || Open(c, TrimmedGroups(all, Due(c.sent, m), limit), held', r)
  {
    if recovered != [] {
      ParityBack(c, m, recent, known, held, r, recovered, known', limit);
    } else {
      var x: nat :| InRun(c, r, x) && x !in known;
      ParityWaits(c, m, recent, held, r);
      RunStays(c, all[r], known, r, x, m, limit);
      assert held' == held;
    }
  }

  lemma ParityServes(c: Cast, m: nat, groups: map<nat, Group>, recent: map<u16, seq<byte>>, known: set<nat>, held: set<nat>, seen: set<nat>, r: nat,
                     recovered: seq<Recovered>, g: Group, groups': map<nat, Group>, known': set<nat>, held': set<nat>, limit: int)
    requires Framed(c) && r < |c.runs| && RunNear(c, m, r) && FedParity(c, m, recent, r, recovered) && Served(c, groups, known, held, seen)
    requires GroupsRight(c, m, groups, held, seen) && Remembers(c, m, recent.Keys, held, limit) && held <= known
    requires Settled(c, known, r) || (Agrees(c, recent, held, r) && Fills(c, g, held, r))
    requires 0 < m <= |c.sent| && (forall j: nat :: j < m ==> j in known) && limit >= 0
    requires groups' == TrimmedGroups(if recovered == [] then groups[r := g] else groups, Due(c.sent, m), limit)
    requires known' == known + IndicesOf(c, m, recovered) && held' == held + IndicesOf(c, m, recovered)
    ensures Served(c, groups', known', held', seen + {r})
  {
    var all, back := if recovered == [] then groups[r := g] else groups, IndicesOf(c, m, recovered);
    forall j | j in back
      ensures InRun(c, r, j)
    {
      RecoveredOfParity(c, m, recent, held, r, recovered, j, limit);
    }
    forall q | q in seen && q != r
      ensures q < |c.runs| && (Settled(c, known', q) || Open(c, groups', held', q))
    {
      ParityServesOther(c, m, groups, known, held, r, q, back, all, known', held', limit);
    }
    if !Settled(c, known, r) {
      ParityServesOwn(c, m, recent, known, held, r, recovered, all, known', held', limit);
    }
  }

  lemma CollectedRight(c: Cast, m: nat, groups: map<nat, Group>, held: set<nat>, seen: set<nat>, r: nat, g: Group, groups': map<nat, Group>,
                       more: set<nat>, expected: u16, limit: int, kept: bool)
    requires GroupsRight(c, m, groups, held, seen) && r < |c.runs| && WithinHeld(c, g, held, r) && RunNear(c, m, r) && held <= more
    requires groups' == TrimmedGroups(if kept then groups[r := g] else groups, expected, limit)
    ensures GroupsRight(c, m, groups', more, seen + {r})
  {
  }

  // ---------- The log is kept exactly ----------

  function WithData(log: Log, i: nat): Log {
    log.(arrived := log.arrived + {i}, counted := log.counted + {i})
  }

  function WithParity(log: Log, r: nat): Log {
    log.(seen := log.seen + {r})
  }

  lemma HeldMore(c: Cast, log: Log, log': Log, held: set<nat>, more: set<nat>)
    requires NoLess(log, log') && HeldRight(c, log, held) && more == held + log'.counted && forall i :: i in log'.counted ==> i < |c.sent|
    ensures HeldRight(c, log', more)
  {
    forall i | i in more
      ensures Noted(c, log', i)
    {
      if i in held && i !in log'.counted {
        assert Noted(c, log, i);
        ByParityGrows(c, log, log', i);
      }
    }
  }

  /** With the recovered packets the tracker is right about the new log, and the buffer knows what can be known. */
  lemma LogGrows(c: Cast, log: Log, log': Log, held: set<nat>, fed: set<nat>, back: set<nat>, groups': map<nat, Group>,
                 known': set<nat>, held': set<nat>)
    requires Framed(c) && Sane(c, log) && Sane(c, log') && NoLess(log, log') && HeldRight(c, log, held)
    requires log'.arrived == log.arrived + fed && log'.counted == log.counted + fed
    requires forall j :: j in back ==> j < |c.sent| && exists r :: r in log'.seen && InRun(c, r, j) && OthersIn(c, held + fed, r, j)
    requires known' == Rec(c, log) + fed + back && held' == held + fed + back
    requires Served(c, groups', known', held', log'.seen)
    ensures HeldRight(c, log', held') && known' == Rec(c, log')
  {
    var more := held + fed;
    assert more == held + log'.counted;
    HeldMore(c, log, log', held, more);
    forall j | j in back
      ensures Noted(c, log', j)
    {
      var r :| r in log'.seen && InRun(c, r, j) && OthersIn(c, more, r, j);
      RebuiltIsNoted(c, log', more, r, j);
    }
    RecGrows(c, log, log');
    assert known' <= Rec(c, log');
    assert log.arrived <= Rec(c, log);
    ServedIsRec(c, log', groups', known', held');
  }

}
