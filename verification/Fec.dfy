/**
 Single-parity forward error correction for RTP data packets: the XOR parity of a group, the FEC
 payload format, and the receiving tracker that rebuilds one missing packet of a group.
 */
module Fec {
  import opened Bytes
  import opened Seqs
  import opened Reorder

  // ---------- Parity ----------

  /** Byte `j` of a payload, zero beyond its end. */
  function Cell(p: seq<byte>, j: nat): byte {
    if j < |p| then p[j] else 0
  }

  /** The XOR of column `j` over the payloads of a group, without those at the indices in `out`. */
  ghost function Mix(group: seq<seq<byte>>, out: set<nat>, j: nat): byte {
    if group == [] then 0
    else
      var i := |group| - 1;
      Mix(group[..i], out, j) ^ (if i in out then 0 else Cell(group[i], j))
  }

  ghost predicate IsParity(parity: seq<byte>, group: seq<seq<byte>>) {
    forall j :: 0 <= j < |parity| ==> parity[j] == Mix(group, {}, j)
  }

  lemma MixAppend(group: seq<seq<byte>>, p: seq<byte>, j: nat)
    ensures Mix(group + [p], {}, j) == Mix(group, {}, j) ^ Cell(p, j)
  {
    assert (group + [p])[..|group|] == group;
  }

  lemma XorLaws(a: byte, b: byte, c: byte)
    ensures (a ^ b) ^ c == (a ^ c) ^ b && a ^ 0 == a && (a ^ b) ^ b == a
  {
  }

  /** Mixing in a payload once more takes it out. */
  lemma {:induction false} MixWithout(group: seq<seq<byte>>, out: set<nat>, i: nat, j: nat, more: set<nat>)
    requires i < |group| && i !in out && more == out + {i}
    ensures Mix(group, more, j) == Mix(group, out, j) ^ Cell(group[i], j)
    decreases |group|
  {
    var k := |group| - 1;
    if i < k {
      MixWithout(group[..k], out, i, j, more);
      MixShift(group, out, i, j, more);
    } else {
      MixUnchanged(group[..k], out, i, j, more);
      XorLaws(Mix(group[..k], out, j), Cell(group[i], j), 0);
    }
  }

  lemma MixShift(group: seq<seq<byte>>, out: set<nat>, i: nat, j: nat, more: set<nat>)
    requires i + 1 < |group| && i !in out && more == out + {i}
    requires var k := |group| - 1; Mix(group[..k], more, j) == Mix(group[..k], out, j) ^ Cell(group[i], j)
    ensures Mix(group, more, j) == Mix(group, out, j) ^ Cell(group[i], j)
  {
    var k := |group| - 1;
    var last: byte := if k in out then 0 else Cell(group[k], j);
    assert k in out <==> k in more;
    XorLaws(Mix(group[..k], out, j), last, Cell(group[i], j));
  }

  lemma {:induction false} MixUnchanged(group: seq<seq<byte>>, out: set<nat>, i: nat, j: nat, more: set<nat>)
    requires |group| <= i && more == out + {i}
    ensures Mix(group, more, j) == Mix(group, out, j)
    decreases |group|
  {
    if group != [] {
      var k := |group| - 1;
      MixUnchanged(group[..k], out, i, j, more);
      assert k in out <==> k in more;
    }
  }

  /** With everything but one payload taken out, what is left is that payload. */
  lemma {:induction false} MixOnly(group: seq<seq<byte>>, out: set<nat>, m: nat, j: nat)
    requires m !in out && forall i :: 0 <= i < |group| && i != m ==> i in out
    ensures Mix(group, out, j) == if m < |group| then Cell(group[m], j) else 0
    decreases |group|
  {
    if group != [] {
      MixOnly(group[..|group| - 1], out, m, j);
    }
  }

  // ---------- The FEC payload ----------

  datatype FecPayload = FecPayload(baseSeq: u16, lengths: seq<nat>, parity: seq<byte>)

  datatype ParseResult = Parsed(fec: FecPayload) | Invalid(reason: string)

  function PutLengths(lengths: seq<nat>): (s: seq<byte>)
    requires forall i :: 0 <= i < |lengths| ==> lengths[i] < 0x1_0000
    ensures |s| == 2 * |lengths|
  {
    if lengths == [] then [] else Put16(lengths[0]) + PutLengths(lengths[1..])
  }

  predicate Buildable(lengths: seq<nat>, parity: seq<byte>) {
    && 2 <= |lengths| <= 255
    && 0 < |parity| <= 0xFFFF
    && forall i :: 0 <= i < |lengths| ==> 0 < lengths[i] <= |parity|
  }

  /** base sequence, packet count, chunk size, packet lengths, parity. */
  function Build(f: FecPayload): seq<byte>
    requires Buildable(f.lengths, f.parity)
  {
    Put16(f.baseSeq) + [|f.lengths| as bv8] + Put16(|f.parity|) + (PutLengths(f.lengths) + f.parity)
  }

  function GetLengths(s: seq<byte>, n: nat): (lengths: seq<nat>)
    requires |s| >= 2 * n
    ensures |lengths| == n
    decreases n
  {
    if n == 0 then [] else [Get16(s[0], s[1])] + GetLengths(s[2..], n - 1)
  }

  function Parse(s: seq<byte>): ParseResult {
    if |s| < 9 then Invalid("rtp fec payload too short")
    else
      var count := s[2] as int;
      var chunk := Get16(s[3], s[4]);
      if count < 2 then Invalid("rtp fec group_packets invalid")
      else if chunk <= 0 then Invalid("rtp fec chunk_bytes invalid")
      else if |s| < 5 + 2 * count + chunk then Invalid("rtp fec payload size mismatch")
      else
        var lengths := GetLengths(s[5..], count);
        if exists i :: 0 <= i < |lengths| && !(0 < lengths[i] <= chunk) then Invalid("rtp fec packet_len invalid")
        else Parsed(FecPayload(Get16(s[0], s[1]), lengths, s[5 + 2 * count..5 + 2 * count + chunk]))
  }

  lemma {:induction false} LengthsRoundTrip(lengths: seq<nat>, tail: seq<byte>)
    requires forall i :: 0 <= i < |lengths| ==> lengths[i] < 0x1_0000
    ensures GetLengths(PutLengths(lengths) + tail, |lengths|) == lengths
    decreases |lengths|
  {
    if lengths != [] {
      AppendAssoc(Put16(lengths[0]), PutLengths(lengths[1..]), tail);
      Get16Put16(lengths[0]);
      LengthsRoundTrip(lengths[1..], tail);
    }
  }

  /** The receiver reads back exactly the group the sender described. */
  lemma ParseBuild(f: FecPayload)
    requires Buildable(f.lengths, f.parity)
    ensures Parse(Build(f)) == Parsed(f)
  {
    BuildHead(f);
    BuildTail(f);
    FieldsParse(Build(f), f);
  }

  lemma BuildHead(f: FecPayload)
    requires Buildable(f.lengths, f.parity)
    ensures var s := Build(f);
            && |s| == 5 + 2 * |f.lengths| + |f.parity|
            && Get16(s[0], s[1]) == f.baseSeq && s[2] as int == |f.lengths| && Get16(s[3], s[4]) == |f.parity|
  {
    HeadFields(f, |f.lengths| as bv8, PutLengths(f.lengths) + f.parity);
    IntOfByte(|f.lengths|);
  }

  lemma BuildTail(f: FecPayload)
    requires Buildable(f.lengths, f.parity)
    ensures var n, s := |f.lengths|, Build(f);
            && |s| == 5 + 2 * n + |f.parity|
            && GetLengths(s[5..], n) == f.lengths
            && s[5 + 2 * n..5 + 2 * n + |f.parity|] == f.parity
  {
    SliceBehind(Put16(f.baseSeq) + [|f.lengths| as bv8] + Put16(|f.parity|), PutLengths(f.lengths), f.parity);
    LengthsRoundTrip(f.lengths, f.parity);
  }

  lemma FieldsParse(s: seq<byte>, f: FecPayload)
    requires Buildable(f.lengths, f.parity) && |s| == 5 + 2 * |f.lengths| + |f.parity|
    requires Get16(s[0], s[1]) == f.baseSeq && s[2] as int == |f.lengths| && Get16(s[3], s[4]) == |f.parity|
    requires GetLengths(s[5..], |f.lengths|) == f.lengths
    requires s[5 + 2 * |f.lengths|..5 + 2 * |f.lengths| + |f.parity|] == f.parity
    ensures Parse(s) == Parsed(f)
  {
  }

  lemma SliceBehind(a: seq<byte>, b: seq<byte>, c: seq<byte>)
    ensures (a + (b + c))[|a|..] == b + c
    ensures (a + (b + c))[|a| + |b|..|a| + |b| + |c|] == c
  {
  }

  lemma HeadFields(f: FecPayload, count: byte, body: seq<byte>)
    requires |f.parity| < 0x1_0000
    ensures var s := Put16(f.baseSeq) + [count] + Put16(|f.parity|) + body;
            Get16(s[0], s[1]) == f.baseSeq && s[2] == count && Get16(s[3], s[4]) == |f.parity|
  {
    Get16Put16(f.baseSeq);
    Get16Put16(|f.parity|);
  }

  // ---------- Rebuilding a missing packet ----------

  datatype Group = Group(baseSeq: u16, lengths: seq<nat>, parity: seq<byte>, data: map<u16, seq<byte>>) {

    predicate WellFormed() {
      && 2 <= |lengths| <= 255
      && (forall i :: 0 <= i < |lengths| ==> 0 < lengths[i] <= |parity|)
      && (forall s :: s in data ==> Contains(s))
    }

    predicate Contains(s: u16) {
      Distance(s, baseSeq) < |lengths|
    }

    /** The sequence number of the group's packet `i`. */
    function At(i: nat): u16
      requires i < 256
    {
      Plus(baseSeq, i)
    }

    /** The group describes these packets, and every payload collected for it is genuine. */
    ghost predicate Describes(packets: seq<seq<byte>>) {
      && |packets| == |lengths|
      && (forall i :: 0 <= i < |lengths| ==> |packets[i]| == lengths[i])
      && IsParity(parity, packets)
      && (forall s :: s in data ==> Contains(s) && data[s] == packets[Distance(s, baseSeq)])
    }
  }

  datatype Recovered = Nothing | Recovered(seqNo: u16, payload: seq<byte>)

  ghost predicate OnlyMissing(g: Group, m: nat)
    requires g.WellFormed()
  {
    && m < |g.lengths|
    && g.At(m) !in g.data
    && forall i :: 0 <= i < |g.lengths| && i != m ==> g.At(i) in g.data
  }

  /**
   From a genuine group with exactly one packet missing the missing packet is rebuilt, byte for
   byte; with none or several missing nothing is.
   */
  method TryRecover(g: Group, ghost packets: seq<seq<byte>>) returns (r: Recovered)
    requires g.WellFormed()
    ensures r.Recovered? ==>
              exists m: nat :: OnlyMissing(g, m) && r.seqNo == g.At(m) && |r.payload| == g.lengths[m]
    ensures g.Describes(packets) ==>
              (forall m: nat :: OnlyMissing(g, m) ==> r == Recovered(g.At(m), packets[m]))
  {
    var missing: nat, count := 0, 0;
    var i := 0;
    while i < |g.lengths|
      invariant 0 <= i <= |g.lengths| && 0 <= count <= 1
      invariant count == 0 ==> forall k :: 0 <= k < i ==> g.At(k) in g.data
      invariant count == 1 ==> missing < i && g.At(missing) !in g.data
      invariant count == 1 ==> forall k :: 0 <= k < i && k != missing ==> g.At(k) in g.data
      invariant forall k :: 0 <= k < i && g.At(k) in g.data ==> |g.data[g.At(k)]| == g.lengths[k]
    {
      if g.At(i) !in g.data {
        count := count + 1;
        if count > 1 {
          return Nothing;
        }
        missing := i;
      } else if |g.data[g.At(i)]| != g.lengths[i] {
        assert Distance(g.At(i), g.baseSeq) == i;
        return Nothing;
      }
      i := i + 1;
    }
    if count != 1 {
      return Nothing;
    }
    assert OnlyMissing(g, missing);
    var recovered := XorAll(g, packets, missing);
    r := Recovered(g.At(missing), recovered[..g.lengths[missing]]);
    if g.Describes(packets) {
      assert r.payload == packets[missing] by {
        forall j | 0 <= j < g.lengths[missing]
          ensures recovered[j] == packets[missing][j]
        {
        }
      }
      forall m: nat | OnlyMissing(g, m)
        ensures m == missing
      {
      }
    }
  }

  /** The indices of the collected packets that are no longer in `rest`. */
  ghost function Done(g: Group, rest: set<u16>): set<nat>
    requires g.WellFormed()
  {
    set i: nat | i < |g.lengths| && g.At(i) in g.data && g.At(i) !in rest
  }

  lemma DoneNext(g: Group, rest: set<u16>, s: u16) returns (i: nat)
    requires g.WellFormed() && s in rest && s in g.data
    ensures i == Distance(s, g.baseSeq) < |g.lengths| && i !in Done(g, rest) && g.At(i) == s
    ensures Done(g, rest - {s}) == Done(g, rest) + {i}
  {
    i := Distance(s, g.baseSeq);
  }

  ghost predicate Mixed(buf: seq<byte>, packets: seq<seq<byte>>, out: set<nat>) {
    forall j :: 0 <= j < |buf| ==> buf[j] == Mix(packets, out, j)
  }

  lemma MixedNext(was: seq<byte>, now: seq<byte>, packets: seq<seq<byte>>, out: set<nat>, i: nat, more: set<nat>)
    requires Mixed(was, packets, out) && i < |packets| && i !in out && more == out + {i}
    requires |now| == |was| && forall j :: 0 <= j < |was| ==> now[j] == was[j] ^ Cell(packets[i], j)
    ensures Mixed(now, packets, more)
  {
    forall j | 0 <= j < |now|
      ensures now[j] == Mix(packets, more, j)
    {
      MixWithout(packets, out, i, j, more);
    }
  }

  /** The parity with every collected payload mixed in, in whatever order the map yields them. */
  method XorAll(g: Group, ghost packets: seq<seq<byte>>, ghost missing: nat) returns (recovered: seq<byte>)
    requires g.WellFormed() && OnlyMissing(g, missing)
    requires forall k :: 0 <= k < |g.lengths| && g.At(k) in g.data ==> |g.data[g.At(k)]| == g.lengths[k]
    ensures |recovered| == |g.parity|
    ensures g.Describes(packets) ==> forall j :: 0 <= j < |recovered| ==> recovered[j] == Cell(packets[missing], j)
  {
    var buf := new byte[|g.parity|](i requires 0 <= i < |g.parity| => g.parity[i]);
    var rest := g.data.Keys;
    assert buf[..] == g.parity && Done(g, rest) == {};
    while rest != {}
      invariant rest <= g.data.Keys
      invariant g.Describes(packets) ==> Mixed(buf[..], packets, Done(g, rest))
      decreases |rest|
    {
      var s :| s in rest;
      ghost var i := DoneNext(g, rest, s);
      ghost var was := buf[..];
      XorInto(buf, g.data[s]);
      if g.Describes(packets) {
        MixedNext(was, buf[..], packets, Done(g, rest), i, Done(g, rest - {s}));
      }
      rest := rest - {s};
    }
    recovered := buf[..];
    if g.Describes(packets) {
      MixedAll(g, packets, missing, recovered);
    }
  }

  lemma MixedAll(g: Group, packets: seq<seq<byte>>, missing: nat, buf: seq<byte>)
    requires g.WellFormed() && OnlyMissing(g, missing) && |packets| == |g.lengths|
    requires Mixed(buf, packets, Done(g, {}))
    ensures forall j :: 0 <= j < |buf| ==> buf[j] == Cell(packets[missing], j)
  {
    var out := Done(g, {});
    forall i: nat | i < |packets| && i != missing
      ensures i in out
    {
      assert g.At(i) in g.data;
    }
    forall j | 0 <= j < |buf|
      ensures buf[j] == Cell(packets[missing], j)
    {
      MixOnly(packets, out, missing, j);
    }
  }

  method XorInto(buf: array<byte>, p: seq<byte>)
    requires |p| <= buf.Length
    modifies buf
    ensures forall j :: 0 <= j < buf.Length ==> buf[j] == old(buf[j]) ^ Cell(p, j)
  {
    var i := 0;
    while i < |p|
      invariant 0 <= i <= |p|
      invariant forall j :: 0 <= j < i ==> buf[j] == old(buf[j]) ^ p[j]
      invariant forall j :: i <= j < buf.Length ==> buf[j] == old(buf[j])
    {
      buf[i] := buf[i] ^ p[i];
      i := i + 1;
    }
  }

  // ---------- The receiving tracker ----------

  /** The packets a group describes, taken from what the sender really sent under those numbers. */
  ghost function PacketsOf(g: Group, truth: map<u16, seq<byte>>): (ps: seq<seq<byte>>)
    requires g.WellFormed() && forall i: nat :: i < |g.lengths| ==> g.At(i) in truth
    ensures |ps| == |g.lengths| && forall i: nat :: i < |ps| ==> ps[i] == truth[g.At(i)]
  {
    seq(|g.lengths|, i requires 0 <= i < |g.lengths| => truth[g.At(i)])
  }

  ghost predicate GenuineGroup(g: Group, truth: map<u16, seq<byte>>) {
    && g.WellFormed()
    && (forall i: nat :: i < |g.lengths| ==> g.At(i) in truth)
    && g.Describes(PacketsOf(g, truth))
  }

  ghost predicate GenuineGroups(groups: map<nat, Group>, truth: map<u16, seq<byte>>) {
    forall k :: k in groups ==> GenuineGroup(groups[k], truth)
  }

  lemma GenuineWith(groups: map<nat, Group>, truth: map<u16, seq<byte>>, k: nat, g: Group)
    requires GenuineGroups(groups, truth)
    ensures GenuineGroups(groups - {k}, truth) && (GenuineGroup(g, truth) ==> GenuineGroups(groups[k := g], truth))
  {
  }

  ghost predicate GenuineData(m: map<u16, seq<byte>>, truth: map<u16, seq<byte>>) {
    forall s :: s in m ==> s in truth && m[s] == truth[s]
  }

  ghost predicate GenuineResults(rs: seq<Recovered>, truth: map<u16, seq<byte>>) {
    forall i :: 0 <= i < |rs| ==> rs[i].Recovered? && rs[i].seqNo in truth && rs[i].payload == truth[rs[i].seqNo]
  }

  /** The packet with this number is among the results. */
  ghost predicate Among(s: u16, rs: seq<Recovered>) {
    exists r :: r in rs && r.Recovered? && r.seqNo == s
  }

  lemma ResultsAppend(rs: seq<Recovered>, r: Recovered, truth: map<u16, seq<byte>>)
    requires r.Recovered?
    ensures GenuineResults(rs, truth) && r.seqNo in truth && r.payload == truth[r.seqNo] ==> GenuineResults(rs + [r], truth)
  {
  }

  lemma AtDistance(g: Group, s: u16)
    requires g.WellFormed() && g.Contains(s)
    ensures g.At(Distance(s, g.baseSeq)) == s
  {
  }

  /** Collecting a genuine packet keeps a group genuine. */
  lemma CollectGenuine(g: Group, truth: map<u16, seq<byte>>, s: u16)
    requires GenuineGroup(g, truth) && g.Contains(s) && s in truth
    ensures GenuineGroup(g.(data := g.data[s := truth[s]]), truth)
  {
    var g' := g.(data := g.data[s := truth[s]]);
    AtDistance(g, s);
    assert forall i: nat :: i < |g.lengths| ==> g'.At(i) == g.At(i);
    assert PacketsOf(g', truth) == PacketsOf(g, truth);
  }

  method RecoverGenuine(g: Group, ghost truth: map<u16, seq<byte>>) returns (r: Recovered)
    requires g.WellFormed()
    ensures GenuineGroup(g, truth) && r.Recovered? ==> r.seqNo in truth && r.payload == truth[r.seqNo] && g.Contains(r.seqNo)
    ensures r.Recovered? ==> exists m: nat :: OnlyMissing(g, m)
    ensures GenuineGroup(g, truth) ==> forall m: nat :: OnlyMissing(g, m) ==> r == Recovered(g.At(m), truth[g.At(m)])
  {
    r := TryRecover(g, if GenuineGroup(g, truth) then PacketsOf(g, truth) else []);
  }

  /** The packet is further behind the expected one than the tracker looks back. */
  predicate TooOld(s: u16, expected: u16, limit: int) {
    limit < Distance(expected, s) < 0x8000
  }

  function Last(g: Group): u16 {
    Plus(g.baseSeq, (|g.lengths| - 1) % 0x1_0000)
  }

  function TrimmedRecent(recent: map<u16, seq<byte>>, expected: u16, limit: int): map<u16, seq<byte>> {
    map s | s in recent && !TooOld(s, expected, limit) :: recent[s]
  }

  function TrimmedGroups(groups: map<nat, Group>, expected: u16, limit: int): map<nat, Group> {
    map k | k in groups && !TooOld(Last(groups[k]), expected, limit) :: groups[k]
  }

  /** Collecting the packet leaves packet m as the only one of the group still missing. */
  ghost predicate LeavesOnly(g: Group, s: u16, payload: seq<byte>, m: nat) {
    && g.WellFormed() && g.Contains(s) && |payload| <= |g.parity|
    && OnlyMissing(g.(data := g.data[s := payload]), m)
  }

  ghost predicate Closes(g: Group, s: u16, payload: seq<byte>) {
    exists m: nat :: LeavesOnly(g, s, payload, m)
  }

  function Offered(g: Group, s: u16, payload: seq<byte>): Group {
    if g.Contains(s) && |payload| <= |g.parity| then g.(data := g.data[s := payload]) else g
  }

  /** The open groups after a packet has been offered to all of them. */
  ghost function OfferedGroups(groups: map<nat, Group>, s: u16, payload: seq<byte>): map<nat, Group> {
    map k | k in groups && !Closes(groups[k], s, payload) :: Offered(groups[k], s, payload)
  }

  /** The result is the packet left alone missing in the group. */
  ghost predicate LeftBy(g: Group, s: u16, payload: seq<byte>, r: Recovered) {
    r.Recovered? && exists m: nat :: LeavesOnly(g, s, payload, m) && r.seqNo == g.At(m)
  }

  /** Every result comes from a group that closed. */
  ghost predicate FromClosed(groups: map<nat, Group>, s: u16, payload: seq<byte>, rs: seq<Recovered>) {
    forall r :: r in rs ==> exists k :: k in groups && LeftBy(groups[k], s, payload, r)
  }

  /** Whatever packet of the group is then left alone missing is among the results. */
  ghost predicate Rebuilt(g: Group, s: u16, payload: seq<byte>, truth: map<u16, seq<byte>>, rs: seq<Recovered>) {
    forall m: nat :: LeavesOnly(g, s, payload, m) ==> g.At(m) in truth && Recovered(g.At(m), truth[g.At(m)]) in rs
  }

  /** That holds of all groups but those still to be visited. */
  ghost predicate RebuiltBut(groups: map<nat, Group>, left: set<nat>, s: u16, payload: seq<byte>, truth: map<u16, seq<byte>>,
                             rs: seq<Recovered>)
  {
    forall k :: k in groups && k !in left ==> Rebuilt(groups[k], s, payload, truth, rs)
  }

  lemma FromClosedNext(groups: map<nat, Group>, k: nat, s: u16, payload: seq<byte>, rs: seq<Recovered>, r: Recovered)
    requires FromClosed(groups, s, payload, rs)
    requires r.Recovered? ==> k in groups && LeftBy(groups[k], s, payload, r)
    ensures r.Recovered? ==> FromClosed(groups, s, payload, rs + [r])
  {
  }

  /** All groups but those still to be visited have been offered the packet. */
  ghost predicate OfferedBut(was: map<nat, Group>, left: set<nat>, s: u16, payload: seq<byte>, now: map<nat, Group>) {
    forall k :: (k in now <==> k in was && (k in left || !Closes(was[k], s, payload)))
             && (k in now ==> now[k] == if k in left then was[k] else Offered(was[k], s, payload))
  }

  lemma OfferedNext(was: map<nat, Group>, left: set<nat>, k: nat, s: u16, payload: seq<byte>, before: map<nat, Group>, now: map<nat, Group>)
    requires OfferedBut(was, left, s, payload, before) && k in left && k in was
    requires now == if Closes(was[k], s, payload) then before - {k} else before[k := Offered(was[k], s, payload)]
    ensures OfferedBut(was, left - {k}, s, payload, now)
  {
  }

  lemma OfferedDone(was: map<nat, Group>, s: u16, payload: seq<byte>, now: map<nat, Group>)
    requires OfferedBut(was, {}, s, payload, now)
    ensures now == OfferedGroups(was, s, payload)
  {
  }

  lemma RebuiltNext(groups: map<nat, Group>, left: set<nat>, k: nat, s: u16, payload: seq<byte>, truth: map<u16, seq<byte>>,
                    rs: seq<Recovered>, r: Recovered)
    requires RebuiltBut(groups, left, s, payload, truth, rs) && k in groups && Rebuilt(groups[k], s, payload, truth, [r])
    ensures RebuiltBut(groups, left - {k}, s, payload, truth, rs + [r])
    ensures r.Nothing? ==> RebuiltBut(groups, left - {k}, s, payload, truth, rs)
  {
  }

  /** No packet of a genuine group is empty or longer than the parity. */
  lemma NoneIsEmpty(g: Group, truth: map<u16, seq<byte>>, s: u16)
    requires GenuineGroup(g, truth) && g.Contains(s)
    ensures s in truth && 0 < |truth[s]| <= |g.parity|
  {
    var i := Distance(s, g.baseSeq);
    assert g.At(i) == s && |PacketsOf(g, truth)[i]| == g.lengths[i];
  }

  lemma LeavesOnlyMeans(g: Group, s: u16, payload: seq<byte>, g': Group)
    requires g.WellFormed() && g.Contains(s) && |payload| <= |g.parity| && g' == g.(data := g.data[s := payload])
    ensures g'.WellFormed() && forall m: nat :: LeavesOnly(g, s, payload, m) <==> OnlyMissing(g', m)
    ensures forall m: nat :: m < |g.lengths| ==> g'.At(m) == g.At(m)
  {
  }

  /** Hands a packet to a group that contains its number: the group grows, and closes exactly if one packet is left to rebuild. */
  method Extend(g: Group, s: u16, payload: seq<byte>, ghost truth: map<u16, seq<byte>>) returns (g': Group, r: Recovered)
    requires g.WellFormed() && g.Contains(s)
    ensures g'.WellFormed() && g' == Offered(g, s, payload)
    ensures GenuineGroup(g, truth) && s in truth && truth[s] == payload ==>
              && GenuineGroup(g', truth)
              && (r.Recovered? <==> Closes(g, s, payload))
              && (r.Recovered? ==> r.seqNo in truth && r.payload == truth[r.seqNo] && LeftBy(g, s, payload, r))
              && Rebuilt(g, s, payload, truth, [r])
  {
    ghost var honest := GenuineGroup(g, truth) && s in truth && truth[s] == payload;
    g' := g;
    if honest {
      NoneIsEmpty(g, truth, s);
    }
    if |payload| <= |g.parity| {
      g' := g.(data := g.data[s := payload]);
      LeavesOnlyMeans(g, s, payload, g');
      if honest {
        CollectGenuine(g, truth, s);
      }
    }
    r := RecoverGenuine(g', truth);
  }

  /** Remembered are exactly these packets and the recovered ones, without those too old. */
  ghost predicate Keeps(recent: set<u16>, numbers: set<u16>, recovered: seq<Recovered>, expected: u16, limit: int) {
    forall s :: s in recent <==> (s in numbers || Among(s, recovered)) && !TooOld(s, expected, limit)
  }

  /**
   The tracker remembers recent packets and open groups. The group key is a hash in the source;
   here it is any number, so a collision may replace a group but never falsifies one.
   */
  class ParityTracker {
    var groups: map<nat, Group>
    var recent: map<u16, seq<byte>>
    const maxRecent: int

    ghost predicate Valid()
      reads this
    {
      forall k :: k in groups ==> groups[k].WellFormed()
    }

    ghost predicate Genuine(truth: map<u16, seq<byte>>)
      reads this
    {
      GenuineData(recent, truth) && GenuineGroups(groups, truth)
    }

    constructor (limit: int)
      ensures groups == map[] && recent == map[] && Valid() && maxRecent == if limit < 32 then 32 else limit
    {
      groups, recent := map[], map[];
      maxRecent := if limit < 32 then 32 else limit;
    }

    /** Forgets exactly the packets and groups too far behind what is expected. */
    method Trim(expected: u16, ghost truth: map<u16, seq<byte>>)
      requires Valid()
      modifies this
      ensures Valid()
      ensures old(Genuine(truth)) ==> Genuine(truth)
      ensures recent == TrimmedRecent(old(recent), expected, maxRecent)
      ensures groups == TrimmedGroups(old(groups), expected, maxRecent)
    {
      var numbers := recent.Keys;
      while numbers != {}
        invariant numbers <= recent.Keys <= old(recent).Keys && groups == old(groups)
        invariant forall s :: s in recent ==> recent[s] == old(recent)[s]
        invariant forall s :: s in old(recent) && s !in numbers ==> (s in recent <==> !TooOld(s, expected, maxRecent))
        decreases |numbers|
      {
        var s :| s in numbers;
        numbers := numbers - {s};
        if TooOld(s, expected, maxRecent) {
          recent := recent - {s};
        }
      }
      assert recent == TrimmedRecent(old(recent), expected, maxRecent);
      TrimGroups(expected);
    }

    method TrimGroups(expected: u16)
      modifies this`groups
      ensures groups == TrimmedGroups(old(groups), expected, maxRecent)
    {
      var keys := groups.Keys;
      while keys != {}
        invariant keys <= groups.Keys <= old(groups).Keys
        invariant forall k :: k in groups ==> groups[k] == old(groups)[k]
        invariant forall k :: k in old(groups) && k !in keys ==> (k in groups <==> !TooOld(Last(old(groups)[k]), expected, maxRecent))
        decreases |keys|
      {
        var k :| k in keys;
        keys := keys - {k};
        if TooOld(Last(groups[k]), expected, maxRecent) {
          groups := groups - {k};
        }
      }
      assert groups == TrimmedGroups(old(groups), expected, maxRecent);
    }

    /** A genuine data packet rebuilds only genuine packets, and every packet that it leaves alone missing in an open group. */
    method ObserveData(s: u16, payload: seq<byte>, expected: u16, ghost truth: map<u16, seq<byte>>)
      returns (recovered: seq<Recovered>)
      requires Valid()
      modifies this
      ensures Valid()
      ensures old(Genuine(truth)) && s in truth && truth[s] == payload ==>
                && Genuine(truth) && GenuineResults(recovered, truth)
                && RebuiltBut(old(groups), {}, s, payload, truth, recovered)
                && FromClosed(old(groups), s, payload, recovered)
                && (payload != [] ==>
                      && groups == TrimmedGroups(OfferedGroups(old(groups), s, payload), expected, maxRecent)
                      && Keeps(recent.Keys, old(recent).Keys + {s}, recovered, expected, maxRecent))
    {
      if Genuine(truth) {
        forall k | k in groups && groups[k].Contains(s)
          ensures s in truth && |truth[s]| > 0
        {
          NoneIsEmpty(groups[k], truth, s);
        }
      }
      if payload == [] {
        return [];
      }
      recent := recent[s := payload];
      recovered := OfferAll(s, payload, truth);
      Trim(expected, truth);
    }

    method OfferAll(s: u16, payload: seq<byte>, ghost truth: map<u16, seq<byte>>) returns (recovered: seq<Recovered>)
      requires Valid()
      modifies this
      ensures Valid()
      ensures old(Genuine(truth)) && s in truth && truth[s] == payload ==>
                && Genuine(truth) && GenuineResults(recovered, truth)
                && RebuiltBut(old(groups), {}, s, payload, truth, recovered)
                && FromClosed(old(groups), s, payload, recovered)
                && groups == OfferedGroups(old(groups), s, payload)
                && old(recent).Keys <= recent.Keys && (forall r :: r in recovered ==> r.seqNo in recent)
                && (forall q :: q in recent ==> q in old(recent) || Among(q, recovered))
    {
      recovered := [];
      ghost var was, honest := groups, Genuine(truth) && s in truth && truth[s] == payload;
      var keys := groups.Keys;
      while keys != {}
        invariant Valid() && keys <= groups.Keys && keys <= was.Keys
        invariant forall k :: k in keys ==> groups[k] == was[k]
        invariant honest ==> Genuine(truth) && GenuineResults(recovered, truth)
        invariant honest ==> RebuiltBut(was, keys, s, payload, truth, recovered) && FromClosed(was, s, payload, recovered)
        invariant honest ==> OfferedBut(was, keys, s, payload, groups)
        invariant honest ==> old(recent).Keys <= recent.Keys && forall r :: r in recovered ==> r.seqNo in recent
        invariant honest ==> forall q :: q in recent ==> q in old(recent) || Among(q, recovered)
        decreases |keys|
      {
        var k :| k in keys;
        ghost var before := groups;
        var r := Offer(k, s, payload, truth);
        if honest {
          RebuiltNext(was, keys, k, s, payload, truth, recovered, r);
          FromClosedNext(was, k, s, payload, recovered, r);
          OfferedNext(was, keys, k, s, payload, before, groups);
        }
        keys := keys - {k};
        if r.Recovered? {
          ResultsAppend(recovered, r, truth);
          recovered := recovered + [r];
        }
      }
      if honest {
        OfferedDone(was, s, payload, groups);
      }
    }

    /** Hands a packet to one group, which closes exactly if that leaves a single packet to rebuild. */
    method Offer(k: nat, s: u16, payload: seq<byte>, ghost truth: map<u16, seq<byte>>) returns (r: Recovered)
      requires Valid() && k in groups
      modifies this
      ensures Valid()
      ensures forall j :: j != k ==> (j in groups <==> j in old(groups)) && (j in groups ==> groups[j] == old(groups)[j])
      ensures old(Genuine(truth)) && s in truth && truth[s] == payload ==>
                && Genuine(truth) && Rebuilt(old(groups)[k], s, payload, truth, [r])
                && (r.Recovered? <==> Closes(old(groups)[k], s, payload))
                && (r.Recovered? ==> r.seqNo in truth && r.payload == truth[r.seqNo] && LeftBy(old(groups)[k], s, payload, r))
                && groups == (if r.Recovered? then old(groups) - {k} else old(groups)[k := Offered(old(groups)[k], s, payload)])
                && recent == (if r.Recovered? then old(recent)[r.seqNo := r.payload] else old(recent))
    {
      var g := groups[k];
      if !g.Contains(s) {
        assert groups == groups[k := g];
        return Nothing;
      }
      g, r := Extend(g, s, payload, truth);
      if Genuine(truth) {
        GenuineWith(groups, truth, k, g);
      }
      if r.Recovered? {
        groups := groups - {k};
        recent := recent[r.seqNo := r.payload];
      } else {
        groups := groups[k := g];
      }
    }

    /** A genuine parity packet rebuilds the one packet of its group that is not among the recent ones. */
    method ObserveFec(payload: seq<byte>, key: nat, expected: u16, ghost truth: map<u16, seq<byte>>)
      returns (recovered: seq<Recovered>, accepted: bool)
      requires Valid()
      modifies this
      ensures Valid()
      ensures accepted <==> Parse(payload).Parsed?
      ensures !accepted ==> recovered == [] && groups == old(groups) && recent == old(recent)
      ensures accepted && old(Genuine(truth)) && GenuineGroup(GroupOf(Parse(payload).fec), truth) ==>
                && Genuine(truth)
                && GenuineResults(recovered, truth)
                && forall m: nat :: OnlyAbsent(Parse(payload).fec, old(recent), m) ==>
                     var lost := GroupOf(Parse(payload).fec).At(m);
                     recovered == [Recovered(lost, truth[lost])]
      ensures accepted && old(Genuine(truth)) && GenuineGroup(GroupOf(Parse(payload).fec), truth) ==>
                && Keeps(recent.Keys, old(recent).Keys, recovered, expected, maxRecent)
                && (forall r :: r in recovered ==> GroupOf(Parse(payload).fec).Contains(r.seqNo))
                && (recovered != [] ==> exists m: nat :: OnlyAbsent(Parse(payload).fec, old(recent), m))
                && groups == TrimmedGroups(if recovered == [] then old(groups)[key := Collected(Parse(payload).fec, old(recent))]
                                           else old(groups), expected, maxRecent)
    {
      var parsed := Parse(payload);
      if parsed.Invalid? {
        return [], false;
      }
      accepted := true;
      ParsedIsWellFormed(payload);
      recovered := Accept(parsed.fec, key, truth);
      Trim(expected, truth);
    }

    method Accept(f: FecPayload, key: nat, ghost truth: map<u16, seq<byte>>) returns (recovered: seq<Recovered>)
      requires Valid() && GroupOf(f).WellFormed()
      modifies this
      ensures Valid()
      ensures old(Genuine(truth)) && GenuineGroup(GroupOf(f), truth) ==>
                && Genuine(truth)
                && GenuineResults(recovered, truth)
                && forall m: nat :: OnlyAbsent(f, old(recent), m) ==>
                     var lost := GroupOf(f).At(m);
                     recovered == [Recovered(lost, truth[lost])]
      ensures old(Genuine(truth)) && GenuineGroup(GroupOf(f), truth) ==>
                && groups == (if recovered == [] then old(groups)[key := Collected(f, old(recent))] else old(groups))
                && old(recent).Keys <= recent.Keys
                && (forall r :: r in recovered ==> r.seqNo in recent && GroupOf(f).Contains(r.seqNo))
                && (forall q :: q in recent ==> q in old(recent) || Among(q, recovered))
                && (recovered != [] ==> exists m: nat :: OnlyAbsent(f, old(recent), m))
    {
      var g := Collect(f);
      if Genuine(truth) && GenuineGroup(GroupOf(f), truth) {
        CollectedIsGenuine(f, recent, g, truth);
      }
      var r := RecoverGenuine(g, truth);
      recovered := [];
      if r.Recovered? {
        recovered := [r];
        recent := recent[r.seqNo := r.payload];
      } else {
        groups := groups[key := g];
      }
    }

    /** A new group with those recent packets whose lengths match. */
    method Collect(f: FecPayload) returns (g: Group)
      requires GroupOf(f).WellFormed()
      ensures g.WellFormed()
      ensures g == GroupOf(f).(data := Matching(f, recent, |f.lengths|))
    {
      g := GroupOf(f);
      var i := 0;
      while i < |f.lengths|
        invariant 0 <= i <= |f.lengths|
        invariant g == GroupOf(f).(data := Matching(f, recent, i)) && g.WellFormed()
      {
        var s := Plus(f.baseSeq, i);
        if s in recent && |recent[s]| == f.lengths[i] {
          g := g.(data := g.data[s := recent[s]]);
        }
        i := i + 1;
      }
    }
  }

  function GroupOf(f: FecPayload): Group {
    Group(f.baseSeq, f.lengths, f.parity, map[])
  }

  lemma ParsedIsWellFormed(s: seq<byte>)
    requires Parse(s).Parsed?
    ensures GroupOf(Parse(s).fec).WellFormed()
  {
  }

  function Matching(f: FecPayload, recent: map<u16, seq<byte>>, n: nat): map<u16, seq<byte>>
    requires n <= |f.lengths| <= 255
  {
    if n == 0 then map[]
    else
      var s := Plus(f.baseSeq, n - 1);
      var m := Matching(f, recent, n - 1);
      if s in recent && |recent[s]| == f.lengths[n - 1] then m[s := recent[s]] else m
  }

  /** The group of a parity packet, filled with what is remembered. */
  function Collected(f: FecPayload, recent: map<u16, seq<byte>>): Group
    requires |f.lengths| <= 255
  {
    GroupOf(f).(data := Matching(f, recent, |f.lengths|))
  }

  ghost predicate OnlyAbsent(f: FecPayload, recent: map<u16, seq<byte>>, m: nat) {
    && m < |f.lengths| <= 255
    && Plus(f.baseSeq, m) !in recent
    && forall i: nat :: i < |f.lengths| && i != m ==> Plus(f.baseSeq, i) in recent
  }

  lemma {:induction false} MatchingGenuine(f: FecPayload, recent: map<u16, seq<byte>>, n: nat, truth: map<u16, seq<byte>>)
    requires GenuineGroup(GroupOf(f), truth) && GenuineData(recent, truth) && n <= |f.lengths|
    ensures forall i: nat :: i < n ==> (Plus(f.baseSeq, i) in Matching(f, recent, n) <==> Plus(f.baseSeq, i) in recent)
    ensures forall s :: s in Matching(f, recent, n) ==>
                          Distance(s, f.baseSeq) < n && s in truth && Matching(f, recent, n)[s] == truth[s]
    decreases n
  {
    if n > 0 {
      MatchingGenuine(f, recent, n - 1, truth);
      var g := GroupOf(f);
      assert g.At(n - 1) == Plus(f.baseSeq, n - 1);
      assert |PacketsOf(g, truth)[n - 1]| == f.lengths[n - 1];
    }
  }

  lemma CollectedIsGenuine(f: FecPayload, recent: map<u16, seq<byte>>, g: Group, truth: map<u16, seq<byte>>)
    requires GenuineGroup(GroupOf(f), truth) && GenuineData(recent, truth)
    requires g == GroupOf(f).(data := Matching(f, recent, |f.lengths|)) && g.WellFormed()
    ensures GenuineGroup(g, truth)
    ensures forall m: nat :: OnlyAbsent(f, recent, m) <==> OnlyMissing(g, m)
  {
    MatchingGenuine(f, recent, |f.lengths|, truth);
    FilledIsGenuine(GroupOf(f), g, truth);
    forall m: nat
      ensures OnlyAbsent(f, recent, m) <==> OnlyMissing(g, m)
    {
      AbsentIsMissing(f, recent, g, m);
    }
  }

  lemma AbsentIsMissing(f: FecPayload, recent: map<u16, seq<byte>>, g: Group, m: nat)
    requires g.WellFormed() && g.baseSeq == f.baseSeq && g.lengths == f.lengths
    requires forall i: nat :: i < |f.lengths| ==> (Plus(f.baseSeq, i) in g.data <==> Plus(f.baseSeq, i) in recent)
    ensures OnlyAbsent(f, recent, m) <==> OnlyMissing(g, m)
  {
    assert forall i: nat :: i < |g.lengths| ==> g.At(i) == Plus(f.baseSeq, i);
  }

  lemma FilledIsGenuine(empty: Group, g: Group, truth: map<u16, seq<byte>>)
    requires GenuineGroup(empty, truth) && g == empty.(data := g.data) && g.WellFormed() && GenuineData(g.data, truth)
    ensures GenuineGroup(g, truth)
  {
    assert forall i: nat :: i < |g.lengths| ==> g.At(i) == empty.At(i);
    assert PacketsOf(g, truth) == PacketsOf(empty, truth);
    forall s | s in g.data
      ensures g.data[s] == PacketsOf(g, truth)[Distance(s, g.baseSeq)]
    {
      AtDistance(g, s);
    }
  }
}
