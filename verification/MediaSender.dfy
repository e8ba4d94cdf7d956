/**
 The sending half of the media tunnel: a body is read in chunks, each chunk becomes a program
 stream fragment, each fragment is sliced into numbered RTP packets with XOR parity groups.
 */
module MediaSender {
  import opened Bytes
  import opened Seqs
  import opened RtpHeader
  import opened Reorder
  import PsCodec
  import Fec

  const DEFAULT_CHUNK := 960
  const READ_SIZE := 32768
  const PTS_STEP: bv64 := 3600

  datatype Profile = Profile(chunkBytes: int, fecEnabled: bool, fecGroupPackets: int) {
    function Chunk(): (c: nat)
      ensures c > 0
    {
      if chunkBytes <= 0 then DEFAULT_CHUNK else chunkBytes
    }

    /** The number of packets a parity group may hold, 0 when there is no parity. */
    function Group(): (g: nat)
      ensures g == 0 || g >= 2
    {
      if fecEnabled && fecGroupPackets > 1 then fecGroupPackets else 0
    }
  }

  /** What sendPacket is handed; the bytes on the wire are RtpHeader.Encode of it. */
  datatype Datagram = Datagram(header: Header, payload: seq<byte>)

  // ---------- Slicing ----------

  function Slices(ps: seq<byte>, chunk: nat): (all: seq<seq<byte>>)
    requires chunk > 0
    ensures forall i :: 0 <= i < |all| ==> 0 < |all[i]| <= chunk
    decreases |ps|
  {
    if ps == [] then []
    else if |ps| <= chunk then [ps]
    else [ps[..chunk]] + Slices(ps[chunk..], chunk)
  }

  /** No byte is lost, added or moved by slicing, and all slices but the last are full. */
  lemma {:induction false} SlicesConcat(ps: seq<byte>, chunk: nat)
    requires chunk > 0
    ensures Concat(Slices(ps, chunk)) == ps
    ensures forall i :: 0 <= i < |Slices(ps, chunk)| - 1 ==> |Slices(ps, chunk)[i]| == chunk
    decreases |ps|
  {
    if |ps| > chunk {
      SlicesConcat(ps[chunk..], chunk);
      var rest := Slices(ps[chunk..], chunk);
      assert ([ps[..chunk]] + rest)[1..] == rest;
    } else if ps != [] {
      assert Concat([ps]) == ps + Concat([ps][1..]);
    }
  }

  // ---------- Parity groups ----------

  /** A group is closed when it is full, or at the last packet if it has at least two. */
  predicate Closes(g: nat, n: nat, lo: nat, i: nat) {
    i + 1 - lo == g || (i + 1 == n && i + 1 - lo >= 2)
  }

  /** The consecutive runs of 2..g slices that slices lo..n of a fragment are cut into. */
  function Runs(lo: nat, n: nat, g: nat): (runs: seq<(nat, nat)>)
    requires lo <= n && g >= 2
    decreases n - lo
  {
    if n - lo < 2 then []
    else
      var hi := if lo + g < n then lo + g else n;
      [(lo, hi)] + Runs(hi, n, g)
  }

  /** The runs follow each other without gap or overlap and leave at most the last slice out. */
  lemma {:induction false} RunsPartition(lo: nat, n: nat, g: nat)
    requires lo <= n && g >= 2
    ensures var runs := Runs(lo, n, g);
            && (forall k :: 0 <= k < |runs| ==> 2 <= runs[k].1 - runs[k].0 <= g && lo <= runs[k].0 && runs[k].1 <= n)
            && (forall k :: 0 < k < |runs| ==> runs[k].0 == runs[k - 1].1)
            && (if runs == [] then n - lo <= 1 else runs[0].0 == lo && n - 1 <= runs[|runs| - 1].1)
    decreases n - lo
  {
    if n - lo >= 2 {
      var hi := if lo + g < n then lo + g else n;
      RunsPartition(hi, n, g);
    }
  }

  /** The runs of n slices for which there is parity. */
  function RunsIn(group: nat, n: nat): seq<(nat, nat)> {
    if group >= 2 then Runs(0, n, group) else []
  }

  lemma {:induction false} RunsCount(lo: nat, n: nat, g: nat)
    requires lo <= n && g >= 2
    ensures |Runs(lo, n, g)| == (n - lo) / g + (if (n - lo) % g >= 2 then 1 else 0)
    decreases n - lo
  {
    if n - lo >= g {
      RunsCount(lo + g, n, g);
      DivideLess(n - lo, g);
    } else {
      DivideSmall(n - lo, g);
    }
  }

  lemma DivideLess(n: nat, g: nat)
    requires 0 < g <= n
    ensures n / g == (n - g) / g + 1 && n % g == (n - g) % g
  {
    DivMod(n, g, (n - g) / g + 1, (n - g) % g);
  }

  lemma DivideSmall(n: nat, g: nat)
    requires n < g
    ensures n / g == 0 && n % g == n
  {
    DivMod(n, g, 0, n);
  }

  predicate InSome(runs: seq<(nat, nat)>, i: nat) {
    exists k :: 0 <= k < |runs| && runs[k].0 <= i < runs[k].1
  }

  /**
   With parity switched on and a group size above one there is a parity packet for every full group and
   for a rest of two or more: every slice is covered but a single one left over. Otherwise there is none.
   */
  lemma ParityCovers(p: Profile, n: nat)
    ensures var runs, g := RunsIn(p.Group(), n), p.fecGroupPackets;
            if p.fecEnabled && g > 1 then
              && |runs| == n / g + (if n % g >= 2 then 1 else 0)
              && forall i: nat :: i < n ==> (InSome(runs, i) <==> i + 1 < n || n % g != 1)
            else runs == []
  {
    if p.fecEnabled && p.fecGroupPackets > 1 {
      RunsCount(0, n, p.fecGroupPackets);
      RunsCover(0, n, p.fecGroupPackets);
    }
  }

  lemma {:induction false} RunsCover(lo: nat, n: nat, g: nat)
    requires lo <= n && g >= 2
    ensures forall i: nat :: lo <= i < n ==> (InSome(Runs(lo, n, g), i) <==> i + 1 < n || (n - lo) % g != 1)
    ensures forall i: nat :: i < lo || n <= i ==> !InSome(Runs(lo, n, g), i)
    decreases n - lo
  {
    if n - lo >= 2 {
      var hi := if lo + g < n then lo + g else n;
      var rest := Runs(hi, n, g);
      RunsCover(hi, n, g);
      if lo + g <= n {
        DivideLess(n - lo, g);
      } else {
        DivideSmall(n - lo, g);
      }
      forall i: nat
        ensures InSome([(lo, hi)] + rest, i) <==> lo <= i < hi || InSome(rest, i)
      {
        InSomeCons((lo, hi), rest, i);
      }
    } else if n - lo == 1 {
      DivideSmall(1, g);
    }
  }

  lemma InSomeCons(run: (nat, nat), rest: seq<(nat, nat)>, i: nat)
    ensures InSome([run] + rest, i) <==> run.0 <= i < run.1 || InSome(rest, i)
  {
    var all := [run] + rest;
    if InSome(rest, i) {
      var k :| 0 <= k < |rest| && rest[k].0 <= i < rest[k].1;
      assert all[k + 1] == rest[k];
    }
    if run.0 <= i < run.1 {
      assert all[0] == run;
    }
  }

  /** Of n slices the first i have been dealt with: the runs closed so far are the first ones, and the rest of i is less than a group. */
  predicate Grouped(group: nat, chunk: nat, n: nat, closed: seq<(nat, nat)>, i: nat)
    requires group >= 2
  {
    && EndOf(closed) <= i <= n && i - EndOf(closed) < group && (i == n ==> i - EndOf(closed) <= 1)
    && closed <= Runs(0, n, group) && AllProtectable(closed, chunk)
  }

  lemma GroupStays(group: nat, chunk: nat, n: nat, closed: seq<(nat, nat)>, i: nat)
    requires group >= 2 && i < n && Grouped(group, chunk, n, closed, i) && !Closes(group, n, EndOf(closed), i)
    ensures Grouped(group, chunk, n, closed, i + 1)
  {
  }

  lemma RunsClose(group: nat, chunk: nat, n: nat, closed: seq<(nat, nat)>, i: nat, more: seq<(nat, nat)>)
    requires group >= 2 && i < n && Grouped(group, chunk, n, closed, i) && Closes(group, n, EndOf(closed), i)
    requires more == closed + [(EndOf(closed), i + 1)]
    ensures |more| == |closed| + 1 && EndOf(more) == i + 1
    ensures !CanProtect(i + 1 - EndOf(closed), chunk) ==> !AllProtectable(Runs(0, n, group), chunk)
    ensures CanProtect(i + 1 - EndOf(closed), chunk) ==> Grouped(group, chunk, n, more, i + 1)
  {
    var lo := EndOf(closed);
    PrefixSplits(0, n, group, closed);
    assert Runs(lo, n, group)[0] == (lo, i + 1);
    assert Runs(0, n, group)[|closed|] == (lo, i + 1);
    assert (lo, i + 1) in Runs(0, n, group);
    ProtectableMore(closed, (lo, i + 1), chunk);
  }

  /** The runs behind the first ones are those of the slices behind them. */
  lemma {:induction false} PrefixSplits(lo: nat, n: nat, g: nat, closed: seq<(nat, nat)>)
    requires lo <= n && g >= 2 && closed <= Runs(lo, n, g)
    ensures var end := if closed == [] then lo else EndOf(closed);
            end <= n && Runs(lo, n, g) == closed + Runs(end, n, g)
    decreases n - lo
  {
    if closed != [] {
      var hi := if lo + g < n then lo + g else n;
      var rest := closed[1..];
      assert Runs(lo, n, g)[0] == (lo, hi) && Runs(lo, n, g)[1..] == Runs(hi, n, g);
      assert closed == [(lo, hi)] + rest;
      PrefixSplits(hi, n, g, rest);
      AppendAssoc([(lo, hi)], rest, Runs(EndOf(closed), n, g));
    }
  }

  // ---------- The packets themselves ----------

  datatype Setting = Setting(ssrc: bv32, fecSsrc: bv32, timestamp: bv32, final: bool, group: nat, chunk: nat)

  /** The sender's 32-bit counters are only ever used through their low 16 bits, so they count on here. */
  function Low16(counter: nat): u16 {
    counter % 0x1_0000
  }

  lemma Low16Next(counter: nat)
    ensures Low16(counter + 1) == Plus(Low16(counter), 1)
  {
  }

  lemma Low16Plus(n: nat, i: u16)
    ensures Plus(Low16(n), i) == Low16(n + i)
  {
  }

  ghost function ParityOf(group: seq<seq<byte>>, chunk: nat): (p: seq<byte>)
    ensures |p| == chunk && Fec.IsParity(p, group)
  {
    seq(chunk, j requires 0 <= j => Fec.Mix(group, {}, j))
  }

  function Lengths(group: seq<seq<byte>>): (ls: seq<nat>)
    ensures |ls| == |group| && forall i :: 0 <= i < |ls| ==> ls[i] == |group[i]|
  {
    seq(|group|, i requires 0 <= i < |group| => |group[i]|)
  }

  /** The parity description of slices lo..hi of a fragment whose first slice has number `first`. */
  ghost function FecOver(chunk: nat, first: nat, all: seq<seq<byte>>, lo: nat, hi: nat): Fec.FecPayload
    requires lo <= hi <= |all|
  {
    Fec.FecPayload(Low16(first + lo), Lengths(all[lo..hi]), ParityOf(all[lo..hi], chunk))
  }

  predicate Sliced(all: seq<seq<byte>>, chunk: nat) {
    forall k :: 0 <= k < |all| ==> 0 < |all[k]| <= chunk
  }

  /** The parity payload format has one byte for the packet count and two for the chunk size. */
  predicate CanProtect(size: nat, chunk: nat) {
    2 <= size <= 255 && 0 < chunk <= 0xFFFF
  }

  predicate Protectable(run: (nat, nat), chunk: nat) {
    run.0 <= run.1 && CanProtect(run.1 - run.0, chunk)
  }

  predicate AllProtectable(runs: seq<(nat, nat)>, chunk: nat) {
    forall run :: run in runs ==> Protectable(run, chunk)
  }

  lemma ProtectableMore(runs: seq<(nat, nat)>, run: (nat, nat), chunk: nat)
    requires AllProtectable(runs, chunk)
    ensures AllProtectable(runs + [run], chunk) <==> Protectable(run, chunk)
  {
    assert run in runs + [run];
  }

  /** The parity packets of n slices can all be written: there are none, or payloads and groups fit the format. */
  predicate ParityFits(n: nat, group: nat, chunk: nat) {
    group < 2 || n < 2 || (0 < chunk <= 0xFFFF && (group <= 255 || n <= 255))
  }

  /** The first group is the largest, so it decides. */
  lemma ParityFitsExactly(n: nat, group: nat, chunk: nat)
    requires group >= 2
    ensures AllProtectable(Runs(0, n, group), chunk) <==> ParityFits(n, group, chunk)
  {
    RunsPartition(0, n, group);
    var runs := Runs(0, n, group);
    if n >= 2 {
      assert runs[0] in runs;
    }
    forall run | run in runs
      ensures 2 <= run.1 - run.0 <= group && run.1 <= n
    {
      RunInBounds(n, group, run);
    }
  }

  lemma FecOverIsBuildable(chunk: nat, first: nat, all: seq<seq<byte>>, lo: nat, hi: nat)
    requires lo <= hi <= |all| && Sliced(all, chunk)
    ensures var f := FecOver(chunk, first, all, lo, hi);
            Fec.Buildable(f.lengths, f.parity) <==> CanProtect(hi - lo, chunk)
  {
    var f := FecOver(chunk, first, all, lo, hi);
    forall i | 0 <= i < |f.lengths|
      ensures 0 < f.lengths[i] <= |f.parity|
    {
      assert all[lo..hi][i] == all[lo + i];
    }
  }

  function DataPacket(c: Setting, first: nat, all: seq<seq<byte>>, i: nat): Datagram
    requires i < |all|
  {
    Datagram(Header(DATA_PAYLOAD_TYPE, c.final && i + 1 == |all|, Low16(first + i), c.timestamp, c.ssrc), all[i])
  }

  /** The data packets of a fragment: its slices in order, the last one marked if it ends the stream. */
  function DataList(c: Setting, first: nat, all: seq<seq<byte>>): (ds: seq<Datagram>)
    ensures |ds| == |all|
  {
    seq(|all|, i requires 0 <= i < |all| => DataPacket(c, first, all, i))
  }

  ghost function FecBytes(chunk: nat, first: nat, all: seq<seq<byte>>, run: (nat, nat)): seq<byte> {
    if run.0 <= run.1 <= |all| then
      var f := FecOver(chunk, first, all, run.0, run.1);
      if Fec.Buildable(f.lengths, f.parity) then Fec.Build(f) else []
    else []
  }

  ghost function FecPacket(c: Setting, first: nat, all: seq<seq<byte>>, run: (nat, nat), fecSeq: nat): Datagram {
    Datagram(Header(FEC_PAYLOAD_TYPE, false, Low16(fecSeq), c.timestamp, c.fecSsrc), FecBytes(c.chunk, first, all, run))
  }

  /** One parity packet for each run, numbered in order. */
  ghost function FecList(c: Setting, first: nat, all: seq<seq<byte>>, runs: seq<(nat, nat)>, fecSeq: nat): (ds: seq<Datagram>)
    ensures |ds| == |runs|
  {
    seq(|runs|, k requires 0 <= k < |runs| => FecPacket(c, first, all, runs[k], fecSeq + k))
  }

  lemma FecListAppend(c: Setting, first: nat, all: seq<seq<byte>>, runs: seq<(nat, nat)>, run: (nat, nat), fecSeq: nat)
    ensures FecList(c, first, all, runs + [run], fecSeq) ==
            FecList(c, first, all, runs, fecSeq) + [FecPacket(c, first, all, run, fecSeq + |runs|)]
  {
  }

  predicate SentAt(first: nat, all: seq<seq<byte>>, truth: map<u16, seq<byte>>, i: nat) {
    i < |all| && Low16(first + i) in truth && truth[Low16(first + i)] == all[i]
  }

  /** Every payload of the fragment stands under its sequence number in `truth`. */
  ghost predicate SentAs(first: nat, all: seq<seq<byte>>, truth: map<u16, seq<byte>>) {
    forall i: nat :: i < |all| ==> SentAt(first, all, truth, i)
  }

  /** A parity packet describes the slices of its run. */
  lemma FecOverDescribes(chunk: nat, first: nat, all: seq<seq<byte>>, lo: nat, hi: nat)
    requires lo <= hi <= |all| && CanProtect(hi - lo, chunk) && Sliced(all, chunk)
    ensures var g := Fec.GroupOf(FecOver(chunk, first, all, lo, hi)); g.WellFormed() && g.Describes(all[lo..hi])
  {
    FecOverIsBuildable(chunk, first, all, lo, hi);
  }

  /** It is true of what was really sent, so any one lost packet of its run can be rebuilt. */
  lemma FecOverIsGenuine(chunk: nat, first: nat, all: seq<seq<byte>>, lo: nat, hi: nat, truth: map<u16, seq<byte>>)
    requires lo <= hi <= |all| && CanProtect(hi - lo, chunk) && Sliced(all, chunk)
    requires SentAs(first, all, truth)
    ensures Fec.GenuineGroup(Fec.GroupOf(FecOver(chunk, first, all, lo, hi)), truth)
  {
    FecOverDescribes(chunk, first, all, lo, hi);
    var g := Fec.GroupOf(FecOver(chunk, first, all, lo, hi));
    forall i: nat | i < |g.lengths|
      ensures g.At(i) in truth && truth[g.At(i)] == all[lo..hi][i]
    {
      Low16Plus(first + lo, i);
      var k := lo + i;
      assert all[lo..hi][i] == all[k];
      assert SentAt(first, all, truth, k);
      assert g.At(i) == Low16(first + k);
    }
    assert Fec.PacketsOf(g, truth) == all[lo..hi];
  }

  lemma RunIsRead(chunk: nat, first: nat, all: seq<seq<byte>>, run: (nat, nat))
    requires run.0 <= run.1 <= |all| && CanProtect(run.1 - run.0, chunk) && Sliced(all, chunk)
    ensures Fec.Parse(FecBytes(chunk, first, all, run)) == Fec.Parsed(FecOver(chunk, first, all, run.0, run.1))
  {
    FecOverIsBuildable(chunk, first, all, run.0, run.1);
    Fec.ParseBuild(FecOver(chunk, first, all, run.0, run.1));
  }

  lemma RunInBounds(n: nat, g: nat, run: (nat, nat))
    requires g >= 2 && run in Runs(0, n, g)
    ensures run.0 <= run.1 <= n && 2 <= run.1 - run.0 <= g
  {
    RunsPartition(0, n, g);
  }

  /** The parity packet of a run reads back as the description of that run. */
  lemma ParityIsRead(c: Setting, first: nat, all: seq<seq<byte>>, run: (nat, nat))
    requires Sliced(all, c.chunk) && c.group >= 2 && run in Runs(0, |all|, c.group) && Protectable(run, c.chunk)
    ensures run.0 <= run.1 <= |all|
    ensures Fec.Parse(FecBytes(c.chunk, first, all, run)) == Fec.Parsed(FecOver(c.chunk, first, all, run.0, run.1))
  {
    RunInBounds(|all|, c.group, run);
    RunIsRead(c.chunk, first, all, run);
  }

  /** That description is true of what was sent. */
  lemma ParityIsGenuine(c: Setting, first: nat, all: seq<seq<byte>>, run: (nat, nat), truth: map<u16, seq<byte>>)
    requires Sliced(all, c.chunk) && c.group >= 2 && run in Runs(0, |all|, c.group) && Protectable(run, c.chunk)
    requires SentAs(first, all, truth)
    ensures run.0 <= run.1 <= |all|
    ensures Fec.GenuineGroup(Fec.GroupOf(FecOver(c.chunk, first, all, run.0, run.1)), truth)
  {
    RunInBounds(|all|, c.group, run);
    FecOverIsGenuine(c.chunk, first, all, run.0, run.1, truth);
  }

  // ---------- Data and parity among the packets ----------

  function Only(ds: seq<Datagram>, payloadType: bv8): seq<Datagram> {
    if ds == [] then []
    else
      var last := ds[|ds| - 1];
      Only(ds[..|ds| - 1], payloadType) + (if last.header.payloadType == payloadType then [last] else [])
  }

  lemma OnlyAppend(ds: seq<Datagram>, d: Datagram, payloadType: bv8)
    ensures Only(ds + [d], payloadType) == Only(ds, payloadType) + (if d.header.payloadType == payloadType then [d] else [])
  {
    assert (ds + [d])[..|ds|] == ds;
  }

  lemma {:induction false} OnlyConcat(a: seq<Datagram>, b: seq<Datagram>, payloadType: bv8)
    ensures Only(a + b, payloadType) == Only(a, payloadType) + Only(b, payloadType)
    decreases |b|
  {
    if b == [] {
      assert a + b == a;
    } else {
      var less, last := b[..|b| - 1], b[|b| - 1];
      OnlyConcat(a, less, payloadType);
      assert a + b == (a + less) + [last];
      OnlyAppend(a + less, last, payloadType);
    }
  }

  lemma {:induction false} OnlyAll(ds: seq<Datagram>, payloadType: bv8)
    requires forall i :: 0 <= i < |ds| ==> ds[i].header.payloadType == payloadType
    ensures Only(ds, payloadType) == ds
    decreases |ds|
  {
    if ds != [] {
      OnlyAll(ds[..|ds| - 1], payloadType);
      assert ds == ds[..|ds| - 1] + [ds[|ds| - 1]];
    }
  }

  lemma {:induction false} OnlyNone(ds: seq<Datagram>, payloadType: bv8)
    requires forall i :: 0 <= i < |ds| ==> ds[i].header.payloadType != payloadType
    ensures Only(ds, payloadType) == []
    decreases |ds|
  {
    if ds != [] {
      OnlyNone(ds[..|ds| - 1], payloadType);
    }
  }

  // ---------- The order of data and parity on the wire ----------

  /** Where the last run ends. */
  function EndOf(runs: seq<(nat, nat)>): nat {
    if runs == [] then 0 else runs[|runs| - 1].1
  }

  /** Every run begins where the one before it ends, the first at 0. */
  predicate Chained(runs: seq<(nat, nat)>, n: nat) {
    runs == [] ||
    var less, last := runs[..|runs| - 1], runs[|runs| - 1];
    last.0 == EndOf(less) && last.0 <= last.1 <= n && Chained(less, n)
  }

  /** The data packets of closed groups, each group followed by its parity packet. */
  function Mixed(data: seq<Datagram>, fecs: seq<Datagram>, runs: seq<(nat, nat)>): seq<Datagram>
    requires Chained(runs, |data|) && |fecs| == |runs|
    decreases |runs|
  {
    if runs == [] then []
    else
      var k := |runs| - 1;
      Mixed(data, fecs[..k], runs[..k]) + (data[runs[k].0..runs[k].1] + [fecs[k]])
  }

  /** All packets of a fragment as they are sent; the last slice may be in no group. */
  function Interleaved(data: seq<Datagram>, fecs: seq<Datagram>, runs: seq<(nat, nat)>): seq<Datagram>
    requires Chained(runs, |data|) && |fecs| == |runs|
  {
    Mixed(data, fecs, runs) + data[EndOf(runs)..]
  }

  lemma MixedNext(data: seq<Datagram>, fecs: seq<Datagram>, runs: seq<(nat, nat)>, run: (nat, nat), fec: Datagram)
    requires Chained(runs, |data|) && |fecs| == |runs| && run.0 == EndOf(runs) && run.0 <= run.1 <= |data|
    ensures Chained(runs + [run], |data|) && EndOf(runs + [run]) == run.1
    ensures Mixed(data, fecs + [fec], runs + [run]) == Mixed(data, fecs, runs) + (data[run.0..run.1] + [fec])
  {
    assert (runs + [run])[..|runs|] == runs && (fecs + [fec])[..|runs|] == fecs;
  }

  predicate AllData(ds: seq<Datagram>) {
    forall i :: 0 <= i < |ds| ==> ds[i].header.payloadType == DATA_PAYLOAD_TYPE
  }

  predicate AllFec(ds: seq<Datagram>) {
    forall i :: 0 <= i < |ds| ==> ds[i].header.payloadType == FEC_PAYLOAD_TYPE
  }

  lemma DataOnly(before: seq<Datagram>, data: seq<Datagram>)
    requires AllData(data)
    ensures Only(before + data, DATA_PAYLOAD_TYPE) == Only(before, DATA_PAYLOAD_TYPE) + data
    ensures Only(before + data, FEC_PAYLOAD_TYPE) == Only(before, FEC_PAYLOAD_TYPE)
  {
    OnlyConcat(before, data, DATA_PAYLOAD_TYPE);
    OnlyConcat(before, data, FEC_PAYLOAD_TYPE);
    OnlyAll(data, DATA_PAYLOAD_TYPE);
    OnlyNone(data, FEC_PAYLOAD_TYPE);
  }

  lemma GroupOnly(before: seq<Datagram>, data: seq<Datagram>, fec: Datagram)
    requires AllData(data) && fec.header.payloadType == FEC_PAYLOAD_TYPE
    ensures Only(before + (data + [fec]), DATA_PAYLOAD_TYPE) == Only(before, DATA_PAYLOAD_TYPE) + data
    ensures Only(before + (data + [fec]), FEC_PAYLOAD_TYPE) == Only(before, FEC_PAYLOAD_TYPE) + [fec]
  {
    AppendAssoc(before, data, [fec]);
    DataOnly(before, data);
    OnlyAppend(before + data, fec, DATA_PAYLOAD_TYPE);
    OnlyAppend(before + data, fec, FEC_PAYLOAD_TYPE);
  }

  lemma MixedStep(before: seq<Datagram>, data: seq<Datagram>, lo: nat, hi: nat, fecs: seq<Datagram>, k: nat)
    requires lo <= hi <= |data| && k < |fecs| && AllData(data) && AllFec(fecs)
    requires Only(before, DATA_PAYLOAD_TYPE) == data[..lo] && Only(before, FEC_PAYLOAD_TYPE) == fecs[..k]
    ensures Only(before + (data[lo..hi] + [fecs[k]]), DATA_PAYLOAD_TYPE) == data[..hi]
    ensures Only(before + (data[lo..hi] + [fecs[k]]), FEC_PAYLOAD_TYPE) == fecs[..k + 1]
  {
    GroupOnly(before, data[lo..hi], fecs[k]);
    assert data[..lo] + data[lo..hi] == data[..hi];
    assert fecs[..k] + [fecs[k]] == fecs[..k + 1];
  }

  lemma {:induction false} MixedOnly(data: seq<Datagram>, fecs: seq<Datagram>, runs: seq<(nat, nat)>)
    requires Chained(runs, |data|) && |fecs| == |runs| && AllData(data) && AllFec(fecs)
    ensures EndOf(runs) <= |data| && Only(Mixed(data, fecs, runs), DATA_PAYLOAD_TYPE) == data[..EndOf(runs)]
    ensures Only(Mixed(data, fecs, runs), FEC_PAYLOAD_TYPE) == fecs
    decreases |runs|
  {
    if runs == [] {
      assert data[..0] == [];
    } else {
      var k := |runs| - 1;
      MixedOnly(data, fecs[..k], runs[..k]);
      MixedStep(Mixed(data, fecs[..k], runs[..k]), data, runs[k].0, runs[k].1, fecs, k);
    }
  }

  /** Taken apart again, they are the data packets in order and the parity packets in order. */
  lemma InterleavedOnly(data: seq<Datagram>, fecs: seq<Datagram>, runs: seq<(nat, nat)>)
    requires Chained(runs, |data|) && |fecs| == |runs| && AllData(data) && AllFec(fecs)
    ensures Only(Interleaved(data, fecs, runs), DATA_PAYLOAD_TYPE) == data
    ensures Only(Interleaved(data, fecs, runs), FEC_PAYLOAD_TYPE) == fecs
  {
    MixedOnly(data, fecs, runs);
    TailOnly(Mixed(data, fecs, runs), data, EndOf(runs));
  }

  lemma TailOnly(before: seq<Datagram>, data: seq<Datagram>, lo: nat)
    requires lo <= |data| && AllData(data) && Only(before, DATA_PAYLOAD_TYPE) == data[..lo]
    ensures Only(before + data[lo..], DATA_PAYLOAD_TYPE) == data
    ensures Only(before + data[lo..], FEC_PAYLOAD_TYPE) == Only(before, FEC_PAYLOAD_TYPE)
  {
    DataOnly(before, data[lo..]);
    assert data[..lo] + data[lo..] == data;
  }

  /** Where a parity packet stands: right behind the last data packet of its run. */
  lemma {:induction false} ParityPlace(data: seq<Datagram>, fecs: seq<Datagram>, runs: seq<(nat, nat)>, k: nat)
    requires Chained(runs, |data|) && |fecs| == |runs| && k < |runs|
    ensures |Mixed(data, fecs, runs)| == EndOf(runs) + |runs|
    ensures runs[k].1 + k < |Mixed(data, fecs, runs)| && Mixed(data, fecs, runs)[runs[k].1 + k] == fecs[k]
    decreases |runs|
  {
    var n := |runs| - 1;
    MixedLength(data, fecs[..n], runs[..n]);
    MixedLength(data, fecs, runs);
    if k < n {
      ParityPlace(data, fecs[..n], runs[..n], k);
    }
  }

  lemma {:induction false} MixedLength(data: seq<Datagram>, fecs: seq<Datagram>, runs: seq<(nat, nat)>)
    requires Chained(runs, |data|) && |fecs| == |runs|
    ensures |Mixed(data, fecs, runs)| == EndOf(runs) + |runs|
    decreases |runs|
  {
    if runs != [] {
      MixedLength(data, fecs[..|runs| - 1], runs[..|runs| - 1]);
    }
  }

  lemma {:induction false} PrefixChained(runs: seq<(nat, nat)>, n: nat, k: nat)
    requires k <= |runs| && (runs != [] ==> runs[0].0 == 0)
    requires forall j :: 0 < j < |runs| ==> runs[j].0 == runs[j - 1].1
    requires forall j :: 0 <= j < |runs| ==> runs[j].0 <= runs[j].1 <= n
    ensures Chained(runs[..k], n)
    decreases k
  {
    if k > 0 {
      PrefixChained(runs, n, k - 1);
      assert runs[..k][..k - 1] == runs[..k - 1];
    }
  }

  lemma RunsAreChained(group: nat, n: nat)
    ensures Chained(RunsIn(group, n), n)
  {
    if group >= 2 {
      var runs := Runs(0, n, group);
      RunsPartition(0, n, group);
      PrefixChained(runs, n, |runs|);
      assert runs[..|runs|] == runs;
    }
  }

  /** The numbered payloads the receiver gets from data packets. */
  function Content(ds: seq<Datagram>): (r: seq<Ordered>)
    ensures |r| == |ds|
  {
    seq(|ds|, i requires 0 <= i < |ds| => Ordered(ds[i].header.seqNo, ds[i].payload))
  }

  function Numbered(first: nat, all: seq<seq<byte>>): (r: seq<Ordered>)
    ensures |r| == |all|
  {
    seq(|all|, i requires 0 <= i < |all| => Ordered(Low16(first + i), all[i]))
  }

  lemma ContentAppend(a: seq<Datagram>, b: seq<Datagram>)
    ensures Content(a + b) == Content(a) + Content(b)
  {
  }

  lemma ContentOfList(c: Setting, first: nat, all: seq<seq<byte>>)
    ensures Content(DataList(c, first, all)) == Numbered(first, all)
  {
  }

  lemma NumberedIsConsecutive(first: nat, all: seq<seq<byte>>)
    ensures Consecutive(Numbered(first, all))
  {
    var r := Numbered(first, all);
    forall n | 0 < n < |r|
      ensures r[n].seqNo == Plus(r[n - 1].seqNo, 1)
    {
      Low16Next(first + n - 1);
    }
  }

  lemma NumberedAppend(first: nat, a: seq<seq<byte>>, b: seq<seq<byte>>)
    ensures Numbered(first, a + b) == Numbered(first, a) + Numbered(first + |a|, b)
  {
  }

  // ---------- Reading the body ----------

  /** One call of the body reader; after the last event the reader reports end of file for good. */
  datatype Read = Data(bytes: seq<byte>) | Stall | Fail

  predicate ValidReads(script: seq<Read>) {
    forall i :: 0 <= i < |script| && script[i].Data? ==> 0 < |script[i].bytes| <= READ_SIZE
  }

  datatype Chunk = Chunk(payload: seq<byte>, final: bool)

  datatype Plan = Plan(chunks: seq<Chunk>, ok: bool)

  /** The chunks the read loop sends, and whether it ends without a read error. */
  function PlanOf(script: seq<Read>): Plan {
    if script == [] then PlanFrom([], [])
    else
      match script[0]
      case Data(bytes) => PlanFrom(bytes, script[1..])
      case Stall => Plan([], true)
      case Fail => Plan([], false)
  }

  /** A chunk is sent only after the next read: that is how the last one is recognised. */
  function PlanFrom(current: seq<byte>, script: seq<Read>): Plan
    decreases |script|
  {
    if script == [] then Plan([Chunk(current, true)], true)
    else
      match script[0]
      case Data(bytes) =>
        var more := PlanFrom(bytes, script[1..]);
        more.(chunks := [Chunk(current, false)] + more.chunks)
      case Stall => Plan([Chunk(current, false)], true)
      case Fail => Plan([], false)
  }

  function BytesOf(chunks: seq<Chunk>): seq<byte> {
    if chunks == [] then [] else chunks[0].payload + BytesOf(chunks[1..])
  }

  /** Everything the reader would deliver. */
  function BodyOf(script: seq<Read>): seq<byte> {
    if script == [] then []
    else (if script[0].Data? then script[0].bytes else []) + BodyOf(script[1..])
  }

  /** The data before the first empty read. */
  function BodyToStall(script: seq<Read>): seq<byte> {
    if script == [] || script[0].Stall? then []
    else (if script[0].Data? then script[0].bytes else []) + BodyToStall(script[1..])
  }

  predicate NoFail(script: seq<Read>) {
    forall i :: 0 <= i < |script| ==> !script[i].Fail?
  }

  /** Some data would still come after the first empty read. */
  predicate DataAfterStall(script: seq<Read>) {
    if script == [] then false
    else if script[0].Stall? then exists i :: 0 <= i < |script| && script[i].Data?
    else DataAfterStall(script[1..])
  }

  lemma {:induction false} PlanFromSends(current: seq<byte>, script: seq<Read>)
    requires NoFail(script)
    ensures PlanFrom(current, script).ok
    ensures BytesOf(PlanFrom(current, script).chunks) == current + BodyToStall(script)
    decreases |script|
  {
    if script == [] {
      assert BytesOf([Chunk(current, true)][1..]) == [];
    } else if script[0].Stall? {
      assert BytesOf([Chunk(current, false)][1..]) == [];
    } else {
      PlanFromSends(script[0].bytes, script[1..]);
      var more := PlanFrom(script[0].bytes, script[1..]);
      assert ([Chunk(current, false)] + more.chunks)[1..] == more.chunks;
    }
  }

  lemma PlanSends(script: seq<Read>)
    requires NoFail(script)
    ensures PlanOf(script).ok && BytesOf(PlanOf(script).chunks) == BodyToStall(script)
  {
    if script == [] {
      PlanFromSends([], []);
    } else if script[0].Data? {
      PlanFromSends(script[0].bytes, script[1..]);
    }
  }

  lemma {:induction false} NoBytesWithoutData(script: seq<Read>)
    requires ValidReads(script)
    ensures BodyOf(script) == [] <==> forall i :: 0 <= i < |script| ==> !script[i].Data?
    decreases |script|
  {
    if script != [] {
      NoBytesWithoutData(script[1..]);
      assert forall i :: 0 < i < |script| ==> script[i] == script[1..][i - 1];
    }
  }

  lemma {:induction false} StallLosesData(script: seq<Read>)
    requires ValidReads(script)
    ensures |BodyToStall(script)| <= |BodyOf(script)|
    ensures BodyToStall(script) == BodyOf(script) <==> !DataAfterStall(script)
    decreases |script|
  {
    if script != [] {
      if script[0].Stall? {
        NoBytesWithoutData(script);
      } else {
        StallLosesData(script[1..]);
        var head := if script[0].Data? then script[0].bytes else [];
        assert BodyToStall(script)[|head|..] == BodyToStall(script[1..]);
        assert BodyOf(script)[|head|..] == BodyOf(script[1..]);
      }
    }
  }

  /** From an error-free reader the whole body is sent if and only if no data follows an empty read. */
  lemma WholeBodyIsSent(script: seq<Read>)
    requires ValidReads(script) && NoFail(script)
    ensures BytesOf(PlanOf(script).chunks) == BodyOf(script) <==> !DataAfterStall(script)
  {
    PlanSends(script);
    StallLosesData(script);
  }

  /** A body reader that pauses once loses what follows, and the sender reports success. */
  lemma StallExample()
    ensures var script := [Data([1]), Stall, Data([2])];
            PlanOf(script).ok && BytesOf(PlanOf(script).chunks) == [1] && BodyOf(script) == [1, 2]
  {
    var script := [Data([1]), Stall, Data([2])];
    PlanSends(script);
    assert script[1..] == [Stall, Data([2])] && script[1..][1..] == [Data([2])];
    assert BodyOf([Data([2])]) == [2] + BodyOf([Data([2])][1..]);
  }

  lemma {:induction false} PlanFromFits(current: seq<byte>, script: seq<Read>)
    requires ValidReads(script) && |current| <= READ_SIZE
    ensures forall k :: 0 <= k < |PlanFrom(current, script).chunks| ==> |PlanFrom(current, script).chunks[k].payload| <= READ_SIZE
    decreases |script|
  {
    if script != [] && script[0].Data? {
      PlanFromFits(script[0].bytes, script[1..]);
    }
  }

  lemma PlanFits(script: seq<Read>)
    requires ValidReads(script)
    ensures forall k :: 0 <= k < |PlanOf(script).chunks| ==> |PlanOf(script).chunks[k].payload| <= READ_SIZE
  {
    if script == [] {
      PlanFromFits([], []);
    } else if script[0].Data? {
      PlanFromFits(script[0].bytes, script[1..]);
    }
  }

  // ---------- Specification of a whole stream ----------

  function FragmentSetting(ssrc: bv32, fecSsrc: bv32, p: Profile, pts: bv64, final: bool): Setting {
    Setting(ssrc, fecSsrc, (pts & 0xFFFF_FFFF) as bv32, final, p.Group(), p.Chunk())
  }

  /** An empty fragment is replaced by a static stream stamped with the 32-bit timestamp. */
  function Filled(ps: seq<byte>, pts: bv64): seq<byte> {
    if ps == [] then PsCodec.ProgramStream([], pts & 0xFFFF_FFFF) else ps
  }

  function SlicesOf(c: Chunk, p: Profile, pts: bv64): (all: seq<seq<byte>>)
    ensures forall i :: 0 <= i < |all| ==> 0 < |all[i]| <= p.Chunk()
  {
    Slices(PsCodec.Fragment(c.payload, pts), p.Chunk())
  }

  function AllSlices(p: Profile, chunks: seq<Chunk>, pts: bv64): seq<seq<byte>>
    decreases |chunks|
  {
    if chunks == [] then [] else SlicesOf(chunks[0], p, pts) + AllSlices(p, chunks[1..], pts + PTS_STEP)
  }

  function Fragments(chunks: seq<Chunk>, pts: bv64): seq<byte>
    decreases |chunks|
  {
    if chunks == [] then [] else PsCodec.Fragment(chunks[0].payload, pts) + Fragments(chunks[1..], pts + PTS_STEP)
  }

  lemma {:induction false} AllSlicesConcat(p: Profile, chunks: seq<Chunk>, pts: bv64)
    ensures Concat(AllSlices(p, chunks, pts)) == Fragments(chunks, pts)
    decreases |chunks|
  {
    if chunks != [] {
      AllSlicesConcat(p, chunks[1..], pts + PTS_STEP);
      ConcatAppend(SlicesOf(chunks[0], p, pts), AllSlices(p, chunks[1..], pts + PTS_STEP));
      SlicesConcat(PsCodec.Fragment(chunks[0].payload, pts), p.Chunk());
    }
  }

  function PayloadsOf(chunks: seq<Chunk>): seq<seq<byte>> {
    if chunks == [] then [] else [chunks[0].payload] + PayloadsOf(chunks[1..])
  }

  /** Decoding the fragments gives back the chunks, one by one, and leaves nothing behind. */
  lemma {:induction false} FragmentsDecode(chunks: seq<Chunk>, pts: bv64)
    requires forall k :: 0 <= k < |chunks| ==> |chunks[k].payload| <= PsCodec.MAX_PES_PAYLOAD
    ensures PsCodec.Parse(Fragments(chunks, pts)) == PsCodec.Parsed(PayloadsOf(chunks), [], PsCodec.Fine)
    decreases |chunks|
  {
    if chunks != [] {
      FragmentsDecode(chunks[1..], pts + PTS_STEP);
      PsCodec.FragmentDecodes(chunks[0].payload, pts, Fragments(chunks[1..], pts + PTS_STEP));
    }
  }

  lemma {:induction false} PayloadsConcat(chunks: seq<Chunk>)
    ensures Concat(PayloadsOf(chunks)) == BytesOf(chunks)
    decreases |chunks|
  {
    if chunks != [] {
      PayloadsConcat(chunks[1..]);
      assert PayloadsOf(chunks)[1..] == PayloadsOf(chunks[1..]);
    }
  }

  // ---------- Everything that goes out ----------

  /** The packets of a fragment of which the closed groups and the slices up to i have been sent. */
  ghost function SoFar(c: Setting, first: nat, all: seq<seq<byte>>, closed: seq<(nat, nat)>, fecSeq: nat, i: nat): seq<Datagram>
    requires Chained(closed, |all|) && EndOf(closed) <= i <= |all|
  {
    Mixed(DataList(c, first, all), FecList(c, first, all, closed, fecSeq), closed) + DataList(c, first, all)[EndOf(closed)..i]
  }

  lemma SoFarData(c: Setting, first: nat, all: seq<seq<byte>>, closed: seq<(nat, nat)>, fecSeq: nat, i: nat, before: seq<Datagram>)
    requires Chained(closed, |all|) && EndOf(closed) <= i < |all|
    ensures before + SoFar(c, first, all, closed, fecSeq, i) + [DataPacket(c, first, all, i)] == before + SoFar(c, first, all, closed, fecSeq, i + 1)
  {
    var mixed, data := Mixed(DataList(c, first, all), FecList(c, first, all, closed, fecSeq), closed), DataList(c, first, all);
    assert data[i] == DataPacket(c, first, all, i);
    OneMore(before, mixed, data, EndOf(closed), i);
  }

  lemma OneMore(before: seq<Datagram>, mixed: seq<Datagram>, data: seq<Datagram>, lo: nat, i: nat)
    requires lo <= i < |data|
    ensures before + (mixed + data[lo..i]) + [data[i]] == before + (mixed + data[lo..i + 1])
  {
  }

  lemma SoFarFec(c: Setting, first: nat, all: seq<seq<byte>>, closed: seq<(nat, nat)>, fecSeq: nat, hi: nat, before: seq<Datagram>)
    requires Chained(closed, |all|) && EndOf(closed) <= hi <= |all|
    ensures var run := (EndOf(closed), hi);
            && Chained(closed + [run], |all|) && EndOf(closed + [run]) == hi
            && before + SoFar(c, first, all, closed, fecSeq, hi) + [FecPacket(c, first, all, run, fecSeq + |closed|)] ==
               before + SoFar(c, first, all, closed + [run], fecSeq, hi)
  {
    var run, data, fecs := (EndOf(closed), hi), DataList(c, first, all), FecList(c, first, all, closed, fecSeq);
    var fec := FecPacket(c, first, all, run, fecSeq + |closed|);
    FecListAppend(c, first, all, closed, run, fecSeq);
    MixedNext(data, fecs, closed, run, fec);
    GroupMore(before, Mixed(data, fecs, closed), data, run.0, hi, fec);
  }

  lemma GroupMore(before: seq<Datagram>, mixed: seq<Datagram>, data: seq<Datagram>, lo: nat, hi: nat, fec: Datagram)
    requires lo <= hi <= |data|
    ensures before + (mixed + data[lo..hi]) + [fec] == before + (mixed + (data[lo..hi] + [fec]) + data[hi..hi])
  {
  }

  /** A fragment to be sent: its setting and its slices. */
  datatype Part = Part(c: Setting, all: seq<seq<byte>>) {
    function Groups(): seq<(nat, nat)> {
      RunsIn(c.group, |all|)
    }
  }

  /** All packets of a fragment: its slices, each parity packet right behind the last slice of its run. */
  ghost function PartWire(part: Part, first: nat, fecSeq: nat): seq<Datagram> {
    RunsAreChained(part.c.group, |part.all|);
    Interleaved(DataList(part.c, first, part.all), FecList(part.c, first, part.all, part.Groups(), fecSeq), part.Groups())
  }

  /** All packets of several fragments. */
  ghost function WireOf(parts: seq<Part>, first: nat, fecSeq: nat): seq<Datagram>
    decreases |parts|
  {
    if parts == [] then []
    else PartWire(parts[0], first, fecSeq) + WireOf(parts[1..], first + |parts[0].all|, fecSeq + |parts[0].Groups()|)
  }

  /** The slices of several fragments. */
  function SlicesIn(parts: seq<Part>): seq<seq<byte>> {
    if parts == [] then [] else parts[0].all + SlicesIn(parts[1..])
  }

  lemma PartOnly(part: Part, first: nat, fecSeq: nat)
    ensures Only(PartWire(part, first, fecSeq), DATA_PAYLOAD_TYPE) == DataList(part.c, first, part.all)
    ensures Only(PartWire(part, first, fecSeq), FEC_PAYLOAD_TYPE) == FecList(part.c, first, part.all, part.Groups(), fecSeq)
  {
    RunsAreChained(part.c.group, |part.all|);
    InterleavedOnly(DataList(part.c, first, part.all), FecList(part.c, first, part.all, part.Groups(), fecSeq), part.Groups());
  }

  function PartOf(ssrc: bv32, fecSsrc: bv32, p: Profile, chunk: Chunk, pts: bv64): Part {
    Part(FragmentSetting(ssrc, fecSsrc, p, pts, chunk.final), SlicesOf(chunk, p, pts))
  }

  /** The fragments of a stream, each stamped later than the one before. */
  function PartsOf(ssrc: bv32, fecSsrc: bv32, p: Profile, chunks: seq<Chunk>, pts: bv64): seq<Part>
    decreases |chunks|
  {
    if chunks == [] then [] else [PartOf(ssrc, fecSsrc, p, chunks[0], pts)] + PartsOf(ssrc, fecSsrc, p, chunks[1..], pts + PTS_STEP)
  }

  lemma {:induction false} PartsSlices(ssrc: bv32, fecSsrc: bv32, p: Profile, chunks: seq<Chunk>, pts: bv64)
    ensures SlicesIn(PartsOf(ssrc, fecSsrc, p, chunks, pts)) == AllSlices(p, chunks, pts)
    decreases |chunks|
  {
    if chunks != [] {
      PartsSlices(ssrc, fecSsrc, p, chunks[1..], pts + PTS_STEP);
      var one, rest := PartOf(ssrc, fecSsrc, p, chunks[0], pts), PartsOf(ssrc, fecSsrc, p, chunks[1..], pts + PTS_STEP);
      assert ([one] + rest)[1..] == rest;
    }
  }

  lemma WireAhead(part: Part, rest: seq<Part>, first: nat, fecSeq: nat)
    ensures WireOf([part] + rest, first, fecSeq) ==
            PartWire(part, first, fecSeq) + WireOf(rest, first + |part.all|, fecSeq + |part.Groups()|)
  {
    assert ([part] + rest)[1..] == rest;
  }

  // ---------- What the packets of a stream say ----------

  /** The data packets of several fragments. */
  function DataIn(parts: seq<Part>, first: nat): seq<Datagram>
    decreases |parts|
  {
    if parts == [] then [] else DataList(parts[0].c, first, parts[0].all) + DataIn(parts[1..], first + |parts[0].all|)
  }

  /** The parity packets of several fragments, fragment by fragment. */
  ghost function ParityLists(parts: seq<Part>, first: nat, fecSeq: nat): (lists: seq<seq<Datagram>>)
    ensures |lists| == |parts|
    decreases |parts|
  {
    if parts == [] then []
    else
      var part := parts[0];
      [FecList(part.c, first, part.all, part.Groups(), fecSeq)] + ParityLists(parts[1..], first + |part.all|, fecSeq + |part.Groups()|)
  }

  ghost function ParityIn(parts: seq<Part>, first: nat, fecSeq: nat): seq<Datagram> {
    Concat(ParityLists(parts, first, fecSeq))
  }

  lemma WireOnlyStep(parts: seq<Part>, first: nat, fecSeq: nat, rest: seq<Datagram>)
    requires parts != [] && rest == WireOf(parts[1..], first + |parts[0].all|, fecSeq + |parts[0].Groups()|)
    ensures Only(WireOf(parts, first, fecSeq), DATA_PAYLOAD_TYPE) == DataList(parts[0].c, first, parts[0].all) + Only(rest, DATA_PAYLOAD_TYPE)
    ensures Only(WireOf(parts, first, fecSeq), FEC_PAYLOAD_TYPE) ==
            FecList(parts[0].c, first, parts[0].all, parts[0].Groups(), fecSeq) + Only(rest, FEC_PAYLOAD_TYPE)
  {
    var here := PartWire(parts[0], first, fecSeq);
    PartOnly(parts[0], first, fecSeq);
    OnlyConcat(here, rest, DATA_PAYLOAD_TYPE);
    OnlyConcat(here, rest, FEC_PAYLOAD_TYPE);
    assert WireOf(parts, first, fecSeq) == here + rest;
  }

  lemma ParityStep(parts: seq<Part>, first: nat, fecSeq: nat)
    requires parts != []
    ensures ParityIn(parts, first, fecSeq) ==
            FecList(parts[0].c, first, parts[0].all, parts[0].Groups(), fecSeq)
            + ParityIn(parts[1..], first + |parts[0].all|, fecSeq + |parts[0].Groups()|)
  {
    var lists, rest := ParityLists(parts, first, fecSeq), ParityLists(parts[1..], first + |parts[0].all|, fecSeq + |parts[0].Groups()|);
    assert lists[1..] == rest;
  }

  /** What goes out is these, the parity packets among the data packets. */
  lemma {:induction false} WireOnly(parts: seq<Part>, first: nat, fecSeq: nat, data: seq<Datagram>, fecs: seq<Datagram>)
    requires data == Only(WireOf(parts, first, fecSeq), DATA_PAYLOAD_TYPE) && fecs == Only(WireOf(parts, first, fecSeq), FEC_PAYLOAD_TYPE)
    ensures data == DataIn(parts, first) && fecs == ParityIn(parts, first, fecSeq)
    decreases |parts|
  {
    if parts != [] {
      var first', fecSeq' := first + |parts[0].all|, fecSeq + |parts[0].Groups()|;
      var rest := WireOf(parts[1..], first', fecSeq');
      WireOnlyStep(parts, first, fecSeq, rest);
      WireOnly(parts[1..], first', fecSeq', Only(rest, DATA_PAYLOAD_TYPE), Only(rest, FEC_PAYLOAD_TYPE));
      ParityStep(parts, first, fecSeq);
    }
  }

  /** The data packets carry the slices, numbered in order. */
  lemma {:induction false} DataContent(parts: seq<Part>, first: nat)
    ensures Content(DataIn(parts, first)) == Numbered(first, SlicesIn(parts))
    decreases |parts|
  {
    if parts != [] {
      var here, rest := DataList(parts[0].c, first, parts[0].all), DataIn(parts[1..], first + |parts[0].all|);
      DataContent(parts[1..], first + |parts[0].all|);
      ContentOfList(parts[0].c, first, parts[0].all);
      ContentAppend(here, rest);
      NumberedAppend(first, parts[0].all, SlicesIn(parts[1..]));
    }
  }

  lemma {:induction false} SliceAt(parts: seq<Part>, first: nat, k: nat, i: nat)
    requires k < |parts| && i < |parts[k].all|
    ensures |SlicesIn(parts[..k])| + i < |DataIn(parts, first)|
    ensures DataIn(parts, first)[|SlicesIn(parts[..k])| + i] == DataPacket(parts[k].c, first + |SlicesIn(parts[..k])|, parts[k].all, i)
    decreases k
  {
    if k == 0 {
      assert parts[..0] == [];
    } else {
      SliceAt(parts[1..], first + |parts[0].all|, k - 1, i);
      PrefixSums(parts, k);
      LaterData(parts, first, |SlicesIn(parts[1..][..k - 1])| + i);
    }
  }

  lemma LaterData(parts: seq<Part>, first: nat, at: nat)
    requires parts != [] && at < |DataIn(parts[1..], first + |parts[0].all|)|
    ensures |parts[0].all| + at < |DataIn(parts, first)|
    ensures DataIn(parts, first)[|parts[0].all| + at] == DataIn(parts[1..], first + |parts[0].all|)[at]
  {
  }

  /** Slice i of fragment k: where it stands among the data packets, and everything its header says. */
  lemma DataAt(parts: seq<Part>, first: nat, k: nat, i: nat)
    requires k < |parts| && i < |parts[k].all|
    ensures var c, all, at := parts[k].c, parts[k].all, |SlicesIn(parts[..k])| + i;
            && at < |DataIn(parts, first)|
            && DataIn(parts, first)[at] ==
               Datagram(Header(96, c.final && i + 1 == |all|, (first + at) % 0x1_0000, c.timestamp, c.ssrc), all[i])
  {
    SliceAt(parts, first, k, i);
  }

  /** The number of parity packets of several fragments. */
  function GroupsIn(parts: seq<Part>): nat {
    if parts == [] then 0 else |parts[0].Groups()| + GroupsIn(parts[1..])
  }

  lemma {:induction false} ListAt(parts: seq<Part>, first: nat, fecSeq: nat, k: nat, from: nat, number: nat)
    requires k < |parts| && from == first + |SlicesIn(parts[..k])| && number == fecSeq + GroupsIn(parts[..k])
    ensures ParityLists(parts, first, fecSeq)[k] == FecList(parts[k].c, from, parts[k].all, parts[k].Groups(), number)
    decreases k
  {
    if k == 0 {
      assert parts[..0] == [];
    } else {
      PrefixSums(parts, k);
      ListAt(parts[1..], first + |parts[0].all|, fecSeq + |parts[0].Groups()|, k - 1, from, number);
    }
  }

  lemma {:induction false} ListsBefore(parts: seq<Part>, first: nat, fecSeq: nat, k: nat)
    requires k <= |parts|
    ensures |Concat(ParityLists(parts, first, fecSeq)[..k])| == GroupsIn(parts[..k])
    decreases k
  {
    var lists := ParityLists(parts, first, fecSeq);
    if k == 0 {
      assert parts[..0] == [] && lists[..0] == [];
    } else {
      var rest := ParityLists(parts[1..], first + |parts[0].all|, fecSeq + |parts[0].Groups()|);
      ListsBefore(parts[1..], first + |parts[0].all|, fecSeq + |parts[0].Groups()|, k - 1);
      PrefixSums(parts, k);
      assert lists[..k][1..] == rest[..k - 1];
    }
  }

  /** The parity packet of run j of fragment k: where it stands among the parity packets, and what it says. */
  lemma ParityAt(parts: seq<Part>, first: nat, fecSeq: nat, k: nat, j: nat, from: nat, at: nat)
    requires k < |parts| && j < |parts[k].Groups()| && from == first + |SlicesIn(parts[..k])| && at == GroupsIn(parts[..k]) + j
    ensures at < |ParityIn(parts, first, fecSeq)|
    ensures var c, d := parts[k].c, ParityIn(parts, first, fecSeq)[at];
            && d.header == Header(127, false, (fecSeq + at) % 0x1_0000, c.timestamp, c.fecSsrc)
            && d.payload == FecBytes(c.chunk, from, parts[k].all, parts[k].Groups()[j])
  {
    ListAt(parts, first, fecSeq, k, from, fecSeq + GroupsIn(parts[..k]));
    ListsBefore(parts, first, fecSeq, k);
    ConcatAt(ParityLists(parts, first, fecSeq), k, j);
  }

  lemma PrefixSums(parts: seq<Part>, k: nat)
    requires 0 < k <= |parts|
    ensures |SlicesIn(parts[..k])| == |parts[0].all| + |SlicesIn(parts[1..][..k - 1])|
    ensures GroupsIn(parts[..k]) == |parts[0].Groups()| + GroupsIn(parts[1..][..k - 1])
  {
    assert parts[..k][1..] == parts[1..][..k - 1];
  }

  predicate NoneMarked(ds: seq<Datagram>) {
    forall i :: 0 <= i < |ds| ==> !ds[i].header.marker
  }

  predicate LastMarked(ds: seq<Datagram>) {
    ds != [] && forall i :: 0 <= i < |ds| ==> (ds[i].header.marker <==> i + 1 == |ds|)
  }

  lemma {:induction false} UnfinalIsUnmarked(parts: seq<Part>, first: nat)
    requires forall k :: 0 <= k < |parts| ==> !parts[k].c.final
    ensures NoneMarked(DataIn(parts, first))
    decreases |parts|
  {
    if parts != [] {
      UnfinalIsUnmarked(parts[1..], first + |parts[0].all|);
    }
  }

  lemma {:induction false} FinalIsMarked(parts: seq<Part>, first: nat)
    requires parts != [] && parts[|parts| - 1].all != []
    requires forall k :: 0 <= k < |parts| ==> (parts[k].c.final <==> k + 1 == |parts|)
    ensures LastMarked(DataIn(parts, first))
    decreases |parts|
  {
    var here, rest := DataList(parts[0].c, first, parts[0].all), DataIn(parts[1..], first + |parts[0].all|);
    if |parts| == 1 {
      assert rest == [] && here + rest == here;
    } else {
      assert forall k :: 0 <= k < |parts| - 1 ==> parts[1..][k] == parts[k + 1];
      FinalIsMarked(parts[1..], first + |parts[0].all|);
      MarkedBehind(here, rest);
    }
  }

  lemma MarkedBehind(a: seq<Datagram>, b: seq<Datagram>)
    requires NoneMarked(a) && LastMarked(b)
    ensures LastMarked(a + b)
  {
    assert forall i :: |a| <= i < |a + b| ==> (a + b)[i] == b[i - |a|];
  }

  /** No read of the script comes back empty without an error. */
  predicate NoStall(script: seq<Read>) {
    forall i :: 0 <= i < |script| ==> !script[i].Stall?
  }

  /** The last chunk is known as such exactly if no read stalls. */
  lemma {:induction false} PlanFinals(current: seq<byte>, script: seq<Read>)
    requires NoFail(script)
    ensures var chunks := PlanFrom(current, script).chunks;
            chunks != [] && forall k :: 0 <= k < |chunks| ==> (chunks[k].final <==> k + 1 == |chunks| && NoStall(script))
    decreases |script|
  {
    if script != [] && script[0].Data? {
      PlanFinals(script[0].bytes, script[1..]);
      assert forall i :: 0 < i < |script| ==> script[i] == script[1..][i - 1];
      assert NoStall(script[1..]) <==> NoStall(script);
    }
  }

  /** The time stamp of the k-th fragment: 3600 ticks after the one before. */
  function StampOf(pts: bv64, k: nat): bv64
    decreases k
  {
    if k == 0 then pts else StampOf(pts + 3600, k - 1)
  }

  lemma {:induction false} PartAt(ssrc: bv32, fecSsrc: bv32, p: Profile, chunks: seq<Chunk>, pts: bv64, k: nat)
    requires k < |chunks|
    ensures |PartsOf(ssrc, fecSsrc, p, chunks, pts)| == |chunks|
    ensures PartsOf(ssrc, fecSsrc, p, chunks, pts)[k] == PartOf(ssrc, fecSsrc, p, chunks[k], StampOf(pts, k))
    decreases |chunks|
  {
    PartsLength(ssrc, fecSsrc, p, chunks, pts);
    PartsHead(ssrc, fecSsrc, p, chunks, pts);
    if k > 0 {
      PartAt(ssrc, fecSsrc, p, chunks[1..], pts + 3600, k - 1);
      assert chunks[1..][k - 1] == chunks[k];
    }
  }

  lemma PartsHead(ssrc: bv32, fecSsrc: bv32, p: Profile, chunks: seq<Chunk>, pts: bv64)
    requires chunks != []
    ensures var parts := PartsOf(ssrc, fecSsrc, p, chunks, pts);
            parts != [] && parts[0] == PartOf(ssrc, fecSsrc, p, chunks[0], pts) && parts[1..] == PartsOf(ssrc, fecSsrc, p, chunks[1..], pts + 3600)
  {
  }

  /** The fragment carries its chunk, the sender's identities and its time stamp, and has parity as the profile says. */
  predicate Carries(part: Part, ssrc: bv32, fecSsrc: bv32, p: Profile, chunk: Chunk, stamp: bv64) {
    && part.c.ssrc == ssrc && part.c.fecSsrc == fecSsrc && part.c.final == chunk.final
    && part.c.timestamp == (stamp & 0xFFFF_FFFF) as bv32
    && part.c.group == (if p.fecEnabled && p.fecGroupPackets > 1 then p.fecGroupPackets else 0)
    && part.all != [] && Concat(part.all) == PsCodec.Fragment(chunk.payload, stamp)
  }

  lemma PartCarries(ssrc: bv32, fecSsrc: bv32, p: Profile, chunk: Chunk, stamp: bv64)
    ensures Carries(PartOf(ssrc, fecSsrc, p, chunk, stamp), ssrc, fecSsrc, p, chunk, stamp)
  {
    SlicesConcat(PsCodec.Fragment(chunk.payload, stamp), p.Chunk());
  }

  /** So does every fragment of a stream, each 3600 ticks after the one before. */
  lemma PartsAre(ssrc: bv32, fecSsrc: bv32, p: Profile, chunks: seq<Chunk>, pts: bv64, k: nat)
    requires k < |chunks|
    ensures |PartsOf(ssrc, fecSsrc, p, chunks, pts)| == |chunks|
    ensures Carries(PartsOf(ssrc, fecSsrc, p, chunks, pts)[k], ssrc, fecSsrc, p, chunks[k], StampOf(pts, k))
  {
    PartAt(ssrc, fecSsrc, p, chunks, pts, k);
    PartCarries(ssrc, fecSsrc, p, chunks[k], StampOf(pts, k));
  }

  lemma {:induction false} PartsLength(ssrc: bv32, fecSsrc: bv32, p: Profile, chunks: seq<Chunk>, pts: bv64)
    ensures |PartsOf(ssrc, fecSsrc, p, chunks, pts)| == |chunks|
    decreases |chunks|
  {
    if chunks != [] {
      PartsLength(ssrc, fecSsrc, p, chunks[1..], pts + PTS_STEP);
    }
  }

  /**
   Of a body that is read without a failure and without a stall exactly the last data packet is marked;
   after a stall none is.
   */
  lemma OnlyLastIsMarked(ssrc: bv32, fecSsrc: bv32, p: Profile, script: seq<Read>, pts: bv64, first: nat, fecSeq: nat)
    requires NoFail(script)
    ensures var ds := Only(WireOf(PartsOf(ssrc, fecSsrc, p, PlanOf(script).chunks, pts), first, fecSeq), DATA_PAYLOAD_TYPE);
            if NoStall(script) then LastMarked(ds) else NoneMarked(ds)
  {
    var chunks := PlanOf(script).chunks;
    var parts := PartsOf(ssrc, fecSsrc, p, chunks, pts);
    var sent := WireOf(parts, first, fecSeq);
    WireOnly(parts, first, fecSeq, Only(sent, DATA_PAYLOAD_TYPE), Only(sent, FEC_PAYLOAD_TYPE));
    PlanIsFinal(script);
    PartsLength(ssrc, fecSsrc, p, chunks, pts);
    forall k | 0 <= k < |chunks|
      ensures parts[k].c.final == chunks[k].final && parts[k].all != []
    {
      PartsAre(ssrc, fecSsrc, p, chunks, pts, k);
    }
    if NoStall(script) {
      FinalIsMarked(parts, first);
    } else {
      UnfinalIsUnmarked(parts, first);
    }
  }

  lemma PlanIsFinal(script: seq<Read>)
    requires NoFail(script)
    ensures var chunks := PlanOf(script).chunks;
            && (NoStall(script) ==> chunks != [])
            && forall k :: 0 <= k < |chunks| ==> (chunks[k].final <==> k + 1 == |chunks| && NoStall(script))
  {
    if script == [] {
      PlanFinals([], []);
    } else if script[0].Data? {
      PlanFinals(script[0].bytes, script[1..]);
      assert forall i :: 0 < i < |script| ==> script[i] == script[1..][i - 1];
      assert NoStall(script[1..]) <==> NoStall(script);
    }
  }

  // ---------- The sender itself ----------

  lemma Nothing(c: Setting, first: nat, all: seq<seq<byte>>, before: seq<Datagram>, fecSeq: nat)
    ensures Chained([], |all|) && before == before + SoFar(c, first, all, [], fecSeq, 0)
  {
    assert SoFar(c, first, all, [], fecSeq, 0) == [];
  }

  lemma PartsAhead(ssrc: bv32, fecSsrc: bv32, p: Profile, chunk: Chunk, rest: seq<Chunk>, pts: bv64)
    ensures PartsOf(ssrc, fecSsrc, p, [chunk] + rest, pts) ==
            [PartOf(ssrc, fecSsrc, p, chunk, pts)] + PartsOf(ssrc, fecSsrc, p, rest, pts + PTS_STEP)
    ensures AllFit(p, [chunk] + rest, pts) <==> ChunkFits(chunk, p, pts) && AllFit(p, rest, pts + PTS_STEP)
  {
    assert ([chunk] + rest)[1..] == rest;
  }

  lemma SentMore(before: seq<Datagram>, parts: seq<Part>, first: nat, fecSeq: nat)
    ensures Content(Only(before + WireOf(parts, first, fecSeq), DATA_PAYLOAD_TYPE)) ==
            Content(Only(before, DATA_PAYLOAD_TYPE)) + Numbered(first, SlicesIn(parts))
  {
    var more := WireOf(parts, first, fecSeq);
    WireOnly(parts, first, fecSeq, Only(more, DATA_PAYLOAD_TYPE), Only(more, FEC_PAYLOAD_TYPE));
    DataContent(parts, first);
    OnlyConcat(before, more, DATA_PAYLOAD_TYPE);
    ContentAppend(Only(before, DATA_PAYLOAD_TYPE), Only(more, DATA_PAYLOAD_TYPE));
  }

  /** The chunks that follow the one at hand. */
  lemma PlanStep(current: seq<byte>, left: seq<Read>) returns (rest: seq<Chunk>)
    requires left != [] ==> !left[0].Fail?
    ensures PlanFrom(current, left).chunks == [Chunk(current, left == [])] + rest
    ensures if left != [] && left[0].Data? then rest == PlanFrom(left[0].bytes, left[1..]).chunks else rest == []
    ensures PlanFrom(current, left).ok == if left != [] && left[0].Data? then PlanFrom(left[0].bytes, left[1..]).ok else true
  {
    rest := if left != [] && left[0].Data? then PlanFrom(left[0].bytes, left[1..]).chunks else [];
  }

  /** Once all slices are sent, the closed groups are all groups. */
  lemma Everything(group: nat, chunk: nat, n: nat, closed: seq<(nat, nat)>)
    requires if group >= 2 then Grouped(group, chunk, n, closed, n) else closed == []
    ensures closed == RunsIn(group, n) && AllProtectable(closed, chunk)
  {
    if group >= 2 {
      PrefixSplits(0, n, group, closed);
      assert closed + [] == closed;
    }
  }

  lemma SoFarIsAll(c: Setting, first: nat, all: seq<seq<byte>>, closed: seq<(nat, nat)>, fecSeq: nat)
    requires Chained(closed, |all|) && EndOf(closed) <= |all|
    ensures SoFar(c, first, all, closed, fecSeq, |all|) == Interleaved(DataList(c, first, all), FecList(c, first, all, closed, fecSeq), closed)
  {
    var data := DataList(c, first, all);
    assert data[EndOf(closed)..|all|] == data[EndOf(closed)..];
  }

  /** A sender socket: its packet counters and everything it has written to the network. */
  class BodySender {
    const ssrc: bv32
    const fecSsrc: bv32
    var seqNo: nat
    var fecSeq: nat
    var wire: seq<Datagram>

    constructor (ssrc: bv32, fecSsrc: bv32, seed: nat, fecSeed: nat)
      ensures this.ssrc == ssrc && this.fecSsrc == fecSsrc
      ensures seqNo == seed && fecSeq == fecSeed && wire == []
    {
      this.ssrc, this.fecSsrc := ssrc, fecSsrc;
      seqNo, fecSeq, wire := seed, fecSeed, [];
    }

    /** The numbered payloads of all data packets sent so far. */
    function Sent(): seq<Ordered>
      reads this
    {
      Content(Only(wire, DATA_PAYLOAD_TYPE))
    }

    /** The read loop: read ahead by one chunk, wrap and send each chunk, stop at the first failure. */
    method SendStream(script: seq<Read>, p: Profile, startPts: bv64) returns (ok: bool)
      modifies this
      ensures ok <==> PlanOf(script).ok && AllFit(p, PlanOf(script).chunks, startPts)
      ensures AllFit(p, PlanOf(script).chunks, startPts) ==>
                && wire == old(wire) + WireOf(PartsOf(ssrc, fecSsrc, p, PlanOf(script).chunks, startPts), old(seqNo), old(fecSeq))
                && Sent() == old(Sent()) + Numbered(old(seqNo), AllSlices(p, PlanOf(script).chunks, startPts))
    {
      ghost var parts, before := PartsOf(ssrc, fecSsrc, p, PlanOf(script).chunks, startPts), wire;
      PartsSlices(ssrc, fecSsrc, p, PlanOf(script).chunks, startPts);
      SentMore(before, parts, seqNo, fecSeq);
      ok := ReadAndSend(script, p, startPts, parts);
    }

    method ReadAndSend(script: seq<Read>, p: Profile, startPts: bv64, ghost parts: seq<Part>) returns (ok: bool)
      requires parts == PartsOf(ssrc, fecSsrc, p, PlanOf(script).chunks, startPts)
      modifies this
      ensures ok <==> PlanOf(script).ok && AllFit(p, PlanOf(script).chunks, startPts)
      ensures AllFit(p, PlanOf(script).chunks, startPts) ==> wire == old(wire) + WireOf(parts, old(seqNo), old(fecSeq))
    {
      if script != [] && !script[0].Data? {
        ok := script[0].Stall?;
      } else if script == [] {
        ok := SendFrom([], [], p, startPts, parts);
      } else {
        ok := SendFrom(script[0].bytes, script[1..], p, startPts, parts);
      }
    }

    /** Sends the chunk at hand and, after reading ahead, those that follow. */
    method SendFrom(bytes: seq<byte>, script: seq<Read>, p: Profile, startPts: bv64, ghost parts: seq<Part>) returns (ok: bool)
      requires parts == PartsOf(ssrc, fecSsrc, p, PlanFrom(bytes, script).chunks, startPts)
      modifies this
      ensures ok <==> PlanFrom(bytes, script).ok && AllFit(p, PlanFrom(bytes, script).chunks, startPts)
      ensures AllFit(p, PlanFrom(bytes, script).chunks, startPts) ==> wire == old(wire) + WireOf(parts, old(seqNo), old(fecSeq))
    {
      var current, left, pts := bytes, script, startPts;
      ghost var ahead, fit := parts, AllFit(p, PlanFrom(bytes, script).chunks, startPts);
      while true
        invariant PlanFrom(bytes, script).ok == PlanFrom(current, left).ok
        invariant fit == AllFit(p, PlanFrom(current, left).chunks, pts)
        invariant ahead == PartsOf(ssrc, fecSsrc, p, PlanFrom(current, left).chunks, pts)
        invariant fit ==> old(wire) + WireOf(parts, old(seqNo), old(fecSeq)) == wire + WireOf(ahead, seqNo, fecSeq)
        decreases |left|
      {
        if left != [] && left[0].Fail? {
          return false;
        }
        var more := left != [] && left[0].Data?;
        ghost var rest := PlanStep(current, left);
        PartsAhead(ssrc, fecSsrc, p, Chunk(current, left == []), rest, pts);
        ahead := PartsOf(ssrc, fecSsrc, p, rest, pts + PTS_STEP);
        ok := SendChunk(Chunk(current, left == []), p, pts, ahead);
        if !ok || !more {
          return;
        }
        pts := pts + PTS_STEP;
        current, left := left[0].bytes, left[1..];
      }
    }

    /** Wraps a chunk as a fragment and sends it, ahead of the fragments still to come. */
    method SendChunk(chunk: Chunk, p: Profile, pts: bv64, ghost rest: seq<Part>) returns (ok: bool)
      modifies this
      ensures ok == ChunkFits(chunk, p, pts)
      ensures ok ==>
                old(wire) + WireOf([PartOf(ssrc, fecSsrc, p, chunk, pts)] + rest, old(seqNo), old(fecSeq)) == wire + WireOf(rest, seqNo, fecSeq)
    {
      ghost var first, fec0, part := seqNo, fecSeq, PartOf(ssrc, fecSsrc, p, chunk, pts);
      ok := SendWhole(chunk, p, pts);
      if ok {
        WireAhead(part, rest, first, fec0);
        AppendAssoc(old(wire), PartWire(part, first, fec0), WireOf(rest, seqNo, fecSeq));
      }
    }

    method SendWhole(chunk: Chunk, p: Profile, pts: bv64) returns (ok: bool)
      modifies this
      ensures ok == ChunkFits(chunk, p, pts)
      ensures var part := PartOf(ssrc, fecSsrc, p, chunk, pts);
              ok ==>
                && seqNo == old(seqNo) + |part.all| && fecSeq == old(fecSeq) + |part.Groups()|
                && wire == old(wire) + PartWire(part, old(seqNo), old(fecSeq))
    {
      ok := SendFragment(PsCodec.Fragment(chunk.payload, pts), p, pts, chunk.final);
      FitsMeans(chunk, p, pts);
      RunsAreChained(p.Group(), |SlicesOf(chunk, p, pts)|);
    }

    /**
     Slices a fragment, numbers and sends the slices, and closes parity groups as they fill: with parity
     switched on and a group size above one, a parity packet stands right behind every full group and
     behind a rest of two or more.
     */
    method SendFragment(fragment: seq<byte>, p: Profile, pts: bv64, final: bool) returns (ok: bool)
      modifies this
      ensures var all := Slices(if fragment == [] then PsCodec.ProgramStream([], pts & 0xFFFF_FFFF) else fragment,
                                if p.chunkBytes > 0 then p.chunkBytes else 960);
              var runs := if p.fecEnabled && p.fecGroupPackets > 1 then Runs(0, |all|, p.fecGroupPackets) else [];
              var c := FragmentSetting(ssrc, fecSsrc, p, pts, final);
              && (ok <==> AllProtectable(runs, if p.chunkBytes > 0 then p.chunkBytes else 960))
              && (ok ==>
                    && seqNo == old(seqNo) + |all| && fecSeq == old(fecSeq) + |runs| && Chained(runs, |all|)
                    && wire == old(wire) + Interleaved(DataList(c, old(seqNo), all), FecList(c, old(seqNo), all, runs, old(fecSeq)), runs))
    {
      var ps, c := Filled(fragment, pts), FragmentSetting(ssrc, fecSsrc, p, pts, final);
      var open := new OpenGroup(c.chunk);
      ghost var all, first, origin := Slices(ps, c.chunk), seqNo, Origin(wire, fecSeq);
      ghost var closed;
      Nothing(c, first, all, wire, fecSeq);
      ok, closed := SendSlices(ps, c, open, first, all, origin);
      RunsAreChained(p.Group(), |all|);
      if ok {
        Everything(c.group, c.chunk, |all|, closed);
        SoFarIsAll(c, first, all, closed, origin.fecSeq);
      }
    }

    method SendSlices(ps: seq<byte>, c: Setting, open: OpenGroup, ghost first: nat, ghost all: seq<seq<byte>>, ghost origin: Origin)
      returns (ok: bool, ghost closed: seq<(nat, nat)>)
      requires c.chunk > 0 && all == Slices(ps, c.chunk) && c.ssrc == ssrc && c.fecSsrc == fecSsrc
      requires Sending(c, open, first, all, 0, [], origin)
      modifies this, open, open.parity
      ensures !ok ==> c.group >= 2 && !AllProtectable(Runs(0, |all|, c.group), c.chunk)
      ensures ok ==> Sending(c, open, first, all, |all|, closed, origin)
    {
      var start: nat := 0;
      ghost var i: nat := 0;
      closed := [];
      SliceStart(ps, c.chunk, all);
      while start < |ps|
        invariant SlicedUpTo(ps, c.chunk, all, start, i)
        invariant Sending(c, open, first, all, i, closed, origin)
      {
        var end := if start + c.chunk < |ps| then start + c.chunk else |ps|;
        SliceHere(ps, c.chunk, start, end, all, i);
        ok, closed := SendSlice(c, open, ps[start..end], end == |ps|, first, all, i, closed, origin);
        if !ok {
          return;
        }
        start, i := end, i + 1;
      }
      SliceEnd(ps, c.chunk, all, i);
      ok := true;
    }

    /** The first i slices of a fragment have been sent, with the parity packets of the closed runs; the open group holds the slices since. */
    ghost predicate Sending(c: Setting, open: OpenGroup, first: nat, all: seq<seq<byte>>, i: nat, closed: seq<(nat, nat)>, origin: Origin)
      reads this, open, open.parity
    {
      var lo := EndOf(closed);
      && lo <= i <= |all| && seqNo == first + i && fecSeq == origin.fecSeq + |closed|
      && open.parity.Length == c.chunk && Chained(closed, |all|)
      && wire == origin.wire + SoFar(c, first, all, closed, origin.fecSeq, i)
      && if c.group >= 2 then open.Covers(first, all, lo, i) && Grouped(c.group, c.chunk, |all|, closed, i) else closed == []
    }

    /** Sends slice i of a fragment and protects it. */
    method SendSlice(c: Setting, open: OpenGroup, payload: seq<byte>, last: bool, ghost first: nat, ghost all: seq<seq<byte>>,
                     ghost i: nat, ghost closed: seq<(nat, nat)>, ghost origin: Origin)
      returns (ok: bool, ghost closed': seq<(nat, nat)>)
      requires Sending(c, open, first, all, i, closed, origin)
      requires Sliced(all, c.chunk) && c.ssrc == ssrc && c.fecSsrc == fecSsrc
      requires i < |all| && payload == all[i] && last == (i + 1 == |all|)
      modifies this, open, open.parity
      ensures !ok ==> c.group >= 2 && !AllProtectable(Runs(0, |all|, c.group), c.chunk)
      ensures ok ==> Sending(c, open, first, all, i + 1, closed', origin)
    {
      var s := Low16(seqNo);
      SendPacket(Datagram(Header(DATA_PAYLOAD_TYPE, c.final && last, s, c.timestamp, ssrc), payload));
      SoFarData(c, first, all, closed, origin.fecSeq, i, origin.wire);
      seqNo := seqNo + 1;
      ok, closed' := true, closed;
      if c.group >= 2 {
        open.Add(s, payload, first, all, EndOf(closed), i);
        ok, closed' := CloseIfDue(c, open, last, first, all, i, closed, origin);
      }
    }

    /** Closes the open parity group behind slice i if it must. */
    method CloseIfDue(c: Setting, open: OpenGroup, last: bool, ghost first: nat, ghost all: seq<seq<byte>>, ghost i: nat,
                      ghost closed: seq<(nat, nat)>, ghost origin: Origin)
      returns (ok: bool, ghost closed': seq<(nat, nat)>)
      requires c.group >= 2 && Sliced(all, c.chunk) && c.fecSsrc == fecSsrc && i < |all| && last == (i + 1 == |all|)
      requires Chained(closed, |all|) && Grouped(c.group, c.chunk, |all|, closed, i) && seqNo == first + i + 1 && fecSeq == origin.fecSeq + |closed|
      requires wire == origin.wire + SoFar(c, first, all, closed, origin.fecSeq, i + 1)
      requires open.parity.Length == c.chunk && open.Covers(first, all, EndOf(closed), i + 1)
      modifies this`wire, this`fecSeq, open
      ensures !ok ==> !AllProtectable(Runs(0, |all|, c.group), c.chunk)
      ensures ok ==> Sending(c, open, first, all, i + 1, closed', origin)
    {
      assert |open.lengths| == i + 1 - EndOf(closed);
      if |open.lengths| == c.group || (last && |open.lengths| >= 2) {
        ok, closed' := CloseNow(c, open, first, all, i, closed, origin);
      } else {
        GroupStays(c.group, c.chunk, |all|, closed, i);
        ok, closed' := true, closed;
      }
    }

    method CloseNow(c: Setting, open: OpenGroup, ghost first: nat, ghost all: seq<seq<byte>>, ghost i: nat, ghost closed: seq<(nat, nat)>,
                    ghost origin: Origin)
      returns (ok: bool, ghost closed': seq<(nat, nat)>)
      requires c.group >= 2 && Sliced(all, c.chunk) && c.fecSsrc == fecSsrc && i < |all|
      requires Grouped(c.group, c.chunk, |all|, closed, i) && Closes(c.group, |all|, EndOf(closed), i)
      requires Chained(closed, |all|) && seqNo == first + i + 1 && fecSeq == origin.fecSeq + |closed|
      requires wire == origin.wire + SoFar(c, first, all, closed, origin.fecSeq, i + 1)
      requires open.parity.Length == c.chunk && open.Covers(first, all, EndOf(closed), i + 1)
      modifies this`wire, this`fecSeq, open
      ensures !ok ==> !AllProtectable(Runs(0, |all|, c.group), c.chunk)
      ensures ok ==> Sending(c, open, first, all, i + 1, closed', origin)
    {
      closed' := closed + [(EndOf(closed), i + 1)];
      RunsClose(c.group, c.chunk, |all|, closed, i, closed');
      ok := CloseGroup(c, open, first, all, i + 1, closed, closed', origin);
    }

    /** Sends the parity packet over the slices since the last closed run, unless the payload format cannot hold it. */
    method CloseGroup(c: Setting, open: OpenGroup, ghost first: nat, ghost all: seq<seq<byte>>, ghost hi: nat,
                      ghost closed: seq<(nat, nat)>, ghost more: seq<(nat, nat)>, ghost origin: Origin)
      returns (ok: bool)
      requires Chained(closed, |all|) && EndOf(closed) < hi <= |all| && Sliced(all, c.chunk) && c.fecSsrc == fecSsrc && c.chunk == open.parity.Length
      requires open.Covers(first, all, EndOf(closed), hi) && fecSeq == origin.fecSeq + |closed|
      requires wire == origin.wire + SoFar(c, first, all, closed, origin.fecSeq, hi) && more == closed + [(EndOf(closed), hi)]
      modifies this`wire, this`fecSeq, open
      ensures ok == CanProtect(hi - EndOf(closed), c.chunk)
      ensures ok ==>
                && fecSeq == old(fecSeq) + 1 && open.Covers(first, all, hi, hi)
                && Chained(more, |all|) && EndOf(more) == hi && wire == origin.wire + SoFar(c, first, all, more, origin.fecSeq, hi)
    {
      FecOverIsBuildable(c.chunk, first, all, EndOf(closed), hi);
      ok := Fec.Buildable(open.lengths, open.parity[..]);
      if ok {
        var fec := Fec.Build(Fec.FecPayload(open.start, open.lengths, open.parity[..]));
        SendPacket(Datagram(Header(FEC_PAYLOAD_TYPE, false, Low16(fecSeq), c.timestamp, fecSsrc), fec));
        SoFarFec(c, first, all, closed, origin.fecSeq, hi, origin.wire);
        fecSeq := fecSeq + 1;
        open.lengths := [];
      }
    }

    method SendPacket(d: Datagram)
      modifies this`wire
      ensures wire == old(wire) + [d]
    {
      wire := wire + [d];
    }
  }

  /** The packets sent and the parity counter as a fragment begins. */
  datatype Origin = Origin(wire: seq<Datagram>, fecSeq: nat)

  /** The parity group being collected: XORed in place, with the length of every packet in it. */
  class OpenGroup {
    const parity: array<byte>
    var lengths: seq<nat>
    var start: u16

    ghost predicate Covers(first: nat, all: seq<seq<byte>>, lo: nat, i: nat)
      reads this, parity
    {
      && lo <= i <= |all|
      && lengths == Lengths(all[lo..i])
      && (lo < i ==> start == Low16(first + lo) && parity[..] == ParityOf(all[lo..i], parity.Length))
    }

    constructor (chunk: nat)
      ensures fresh(parity) && parity.Length == chunk && lengths == []
    {
      parity := new byte[chunk](_ => 0);
      lengths, start := [], 0;
    }

    method Add(s: u16, payload: seq<byte>, ghost first: nat, ghost all: seq<seq<byte>>, ghost lo: nat, ghost i: nat)
      requires Covers(first, all, lo, i) && i < |all|
      requires payload == all[i] && s == Low16(first + i) && |payload| <= parity.Length
      modifies this, parity
      ensures Covers(first, all, lo, i + 1)
    {
      if lengths == [] {
        start := s;
        Clear(parity);
        assert lo == i && all[lo..i] == [];
      }
      ghost var was := parity[..];
      Fec.XorInto(parity, payload);
      ParityGrows(was, parity[..], all, lo, i, parity.Length);
      lengths := lengths + [|payload|];
    }
  }

  /** The parity of the chunk's slices, if any, can be written. */
  predicate ChunkFits(chunk: Chunk, p: Profile, pts: bv64) {
    ParityFits(|SlicesOf(chunk, p, pts)|, p.Group(), p.Chunk())
  }

  lemma FitsMeans(chunk: Chunk, p: Profile, pts: bv64)
    ensures ChunkFits(chunk, p, pts) <==> AllProtectable(RunsIn(p.Group(), |SlicesOf(chunk, p, pts)|), p.Chunk())
    ensures PsCodec.Fragment(chunk.payload, pts) != []
  {
    if p.Group() >= 2 {
      ParityFitsExactly(|SlicesOf(chunk, p, pts)|, p.Group(), p.Chunk());
    }
  }

  predicate AllFit(p: Profile, chunks: seq<Chunk>, pts: bv64)
    decreases |chunks|
  {
    chunks == [] || (ChunkFits(chunks[0], p, pts) && AllFit(p, chunks[1..], pts + PTS_STEP))
  }

  /** The slices from i on are those of the bytes from `start` on. */
  predicate SlicedUpTo(ps: seq<byte>, chunk: nat, all: seq<seq<byte>>, start: nat, i: nat) {
    chunk > 0 && start <= |ps| && i <= |all| && all[i..] == Slices(ps[start..], chunk)
  }

  lemma SliceStart(ps: seq<byte>, chunk: nat, all: seq<seq<byte>>)
    requires chunk > 0 && all == Slices(ps, chunk)
    ensures SlicedUpTo(ps, chunk, all, 0, 0)
  {
    assert ps[0..] == ps && all[0..] == all;
  }

  lemma SliceEnd(ps: seq<byte>, chunk: nat, all: seq<seq<byte>>, i: nat)
    requires SlicedUpTo(ps, chunk, all, |ps|, i)
    ensures i == |all|
  {
    assert |all[i..]| == |all| - i;
  }

  lemma SliceHere(ps: seq<byte>, chunk: nat, start: nat, end: nat, all: seq<seq<byte>>, i: nat)
    requires start < |ps| && SlicedUpTo(ps, chunk, all, start, i)
    requires end == if start + chunk < |ps| then start + chunk else |ps|
    ensures i < |all| && all[i] == ps[start..end] && SlicedUpTo(ps, chunk, all, end, i + 1)
    ensures end == |ps| <==> i + 1 == |all|
  {
    assert all[i..][0] == all[i] && all[i..][1..] == all[i + 1..];
    assert ps[start..][..end - start] == ps[start..end] && ps[start..][end - start..] == ps[end..];
  }

  lemma ParityGrows(was: seq<byte>, now: seq<byte>, all: seq<seq<byte>>, lo: nat, i: nat, chunk: nat)
    requires lo <= i < |all| && |was| == |now| == chunk && was == ParityOf(all[lo..i], chunk)
    requires forall j :: 0 <= j < chunk ==> now[j] == was[j] ^ Fec.Cell(all[i], j)
    ensures now == ParityOf(all[lo..i + 1], chunk) && Lengths(all[lo..i + 1]) == Lengths(all[lo..i]) + [|all[i]|]
  {
    assert all[lo..i + 1] == all[lo..i] + [all[i]];
    forall j | 0 <= j < chunk
      ensures now[j] == ParityOf(all[lo..i + 1], chunk)[j]
    {
      Fec.MixAppend(all[lo..i], all[i], j);
    }
  }

  method Clear(a: array<byte>)
    modifies a
    ensures a[..] == ParityOf([], a.Length)
  {
    var j := 0;
    while j < a.Length
      invariant 0 <= j <= a.Length && forall k :: 0 <= k < j ==> a[k] == 0
    {
      a[j] := 0;
      j := j + 1;
    }
  }
}
