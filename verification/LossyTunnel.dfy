/**
 The tunnel with loss: whatever the sender's parity runs cover, the receiver rebuilds, so a body comes
 out whole as long as every run loses at most one packet.
 */
module LossyTunnel {
  import opened Bytes
  import opened Seqs
  import PsCodec
  import Reorder
  import Fec
  import S = MediaSender
  import R = MediaReceiver
  import T = MediaTunnel
  import opened ParityRuns
  import opened MediaRepair

  /** A run of packets and its parity. */
  datatype Guard = Guard(run: (nat, nat), fec: Fec.FecPayload)

  /** The parity of the slices of one fragment; its first slice has index `base` and number `number`. */
  ghost function FragmentGuards(chunk: nat, number: nat, all: seq<seq<byte>>, base: nat, lo: nat, g: nat): seq<Guard>
    requires lo <= |all| && g >= 2
    decreases |all| - lo
  {
    if |all| - lo < 2 then []
    else
      var hi := if lo + g < |all| then lo + g else |all|;
      [Guard((base + lo, base + hi), S.FecOver(chunk, number, all, lo, hi))] + FragmentGuards(chunk, number, all, base, hi, g)
  }

  lemma GuardsUnfold(chunk: nat, number: nat, all: seq<seq<byte>>, base: nat, lo: nat, g: nat, hi: nat)
    requires lo + 2 <= |all| && g >= 2 && hi == if lo + g < |all| then lo + g else |all|
    ensures FragmentGuards(chunk, number, all, base, lo, g) ==
            [Guard((base + lo, base + hi), S.FecOver(chunk, number, all, lo, hi))] + FragmentGuards(chunk, number, all, base, hi, g)
  {
  }

  /** They are the runs for which the sender writes parity packets, one for one. */
  lemma {:induction false} GuardsAreRuns(chunk: nat, number: nat, all: seq<seq<byte>>, base: nat, lo: nat, g: nat)
    requires lo <= |all| && g >= 2
    ensures var runs, guards := S.Runs(lo, |all|, g), FragmentGuards(chunk, number, all, base, lo, g);
            && |guards| == |runs|
            && forall k :: 0 <= k < |runs| ==>
                 && runs[k].0 <= runs[k].1 <= |all| && guards[k].run == (base + runs[k].0, base + runs[k].1)
                 && guards[k].fec == S.FecOver(chunk, number, all, runs[k].0, runs[k].1)
    decreases |all| - lo
  {
    if |all| - lo >= 2 {
      GuardsAreRuns(chunk, number, all, base, if lo + g < |all| then lo + g else |all|, g);
    }
  }

  /** The slices of every fragment of a stream. */
  function Parts(p: S.Profile, chunks: seq<S.Chunk>, pts: bv64): seq<seq<seq<byte>>>
    decreases |chunks|
  {
    if chunks == [] then [] else [S.SlicesOf(chunks[0], p, pts)] + Parts(p, chunks[1..], pts + S.PTS_STEP)
  }

  /** The parity of a stream of fragments whose first packet has number `first`. */
  ghost function Guards(chunk: nat, g: nat, parts: seq<seq<seq<byte>>>, first: nat, base: nat): seq<Guard>
    requires g >= 2
    decreases |parts|
  {
    if parts == [] then []
    else FragmentGuards(chunk, first + base, parts[0], base, 0, g) + Guards(chunk, g, parts[1..], first, base + |parts[0]|)
  }

  ghost function StreamCast(p: S.Profile, chunks: seq<S.Chunk>, pts: bv64, first: nat): Cast
    requires p.fecEnabled && p.fecGroupPackets > 1
  {
    CastOf(S.Numbered(first, S.AllSlices(p, chunks, pts)), Guards(p.Chunk(), p.Group(), Parts(p, chunks, pts), first, 0))
  }

  function CastOf(sent: seq<Reorder.Ordered>, guards: seq<Guard>): (c: Cast)
    ensures |c.runs| == |c.fecs| == |guards|
  {
    Cast(sent, seq(|guards|, k requires 0 <= k < |guards| => guards[k].run), seq(|guards|, k requires 0 <= k < |guards| => guards[k].fec))
  }

  // ---------- Every parity packet is genuine ----------

  /** The guard is a genuine description of its run among the packets sent. */
  ghost predicate Good(sent: seq<Reorder.Ordered>, g: Guard) {
    Describes(Cast(sent, [g.run], [g.fec]), 0)
  }

  ghost predicate PlacedAt(sent: seq<Reorder.Ordered>, first: nat, base: nat, all: seq<seq<byte>>, i: nat) {
    base + i < |sent| && i < |all| && sent[base + i] == Reorder.Ordered(S.Low16(first + (base + i)), all[i])
  }

  /** The slices stand at their place among the packets sent. */
  ghost predicate Placed(sent: seq<Reorder.Ordered>, first: nat, base: nat, all: seq<seq<byte>>) {
    base + |all| <= |sent| && forall i: nat :: i < |all| ==> PlacedAt(sent, first, base, all, i)
  }

  lemma GuardIsGood(sent: seq<Reorder.Ordered>, chunk: nat, first: nat, base: nat, all: seq<seq<byte>>, lo: nat, hi: nat)
    requires Numbered(Cast(sent, [], [])) && Placed(sent, first, base, all) && S.Sliced(all, chunk)
    requires lo < hi <= |all| && S.CanProtect(hi - lo, chunk)
    ensures Good(sent, Guard((base + lo, base + hi), S.FecOver(chunk, first + base, all, lo, hi)))
  {
    var f := S.FecOver(chunk, first + base, all, lo, hi);
    var c := Cast(sent, [(base + lo, base + hi)], [f]);
    S.FecOverIsBuildable(chunk, first + base, all, lo, hi);
    S.FecOverDescribes(chunk, first + base, all, lo, hi);
    assert PlacedAt(sent, first, base, all, lo);
    assert first + base + lo == first + (base + lo);
    assert Shape(c, 0);
    PayloadsAre(c, first, base, all, lo, hi);
  }

  lemma PayloadsAre(c: Cast, first: nat, base: nat, all: seq<seq<byte>>, lo: nat, hi: nat)
    requires Placed(c.sent, first, base, all) && lo <= hi <= |all| && Shape(c, 0) && c.runs[0] == (base + lo, base + hi)
    ensures Payloads(c, 0) == all[lo..hi]
  {
    forall k | 0 <= k < hi - lo
      ensures Payloads(c, 0)[k] == all[lo..hi][k]
    {
      assert PlacedAt(c.sent, first, base, all, lo + k);
      assert base + (lo + k) == base + lo + k;
    }
  }

  ghost predicate AllGood(sent: seq<Reorder.Ordered>, guards: seq<Guard>) {
    forall k :: 0 <= k < |guards| ==> Good(sent, guards[k])
  }

  /** The runs follow one another between `from` and `to`. */
  ghost predicate Rising(guards: seq<Guard>, from: nat, to: nat) {
    if guards == [] then from <= to
    else from <= guards[0].run.0 < guards[0].run.1 && Rising(guards[1..], guards[0].run.1, to)
  }

  lemma {:induction false} FragmentIsGood(sent: seq<Reorder.Ordered>, chunk: nat, first: nat, base: nat, all: seq<seq<byte>>, lo: nat, g: nat)
    requires Numbered(Cast(sent, [], [])) && Placed(sent, first, base, all) && S.Sliced(all, chunk)
    requires lo <= |all| && g >= 2 && (|all| - lo < 2 || (0 < chunk <= 0xFFFF && (g <= 255 || |all| <= 255)))
    ensures AllGood(sent, FragmentGuards(chunk, first + base, all, base, lo, g))
    decreases |all| - lo
  {
    if |all| - lo >= 2 {
      var hi := if lo + g < |all| then lo + g else |all|;
      GuardIsGood(sent, chunk, first, base, all, lo, hi);
      FragmentIsGood(sent, chunk, first, base, all, hi, g);
      var one, rest := Guard((base + lo, base + hi), S.FecOver(chunk, first + base, all, lo, hi)), FragmentGuards(chunk, first + base, all, base, hi, g);
      GuardsUnfold(chunk, first + base, all, base, lo, g, hi);
      GoodAppend(sent, [one], rest);
    }
  }

  lemma GoodAppend(sent: seq<Reorder.Ordered>, a: seq<Guard>, b: seq<Guard>)
    requires AllGood(sent, a) && AllGood(sent, b)
    ensures AllGood(sent, a + b)
  {
    forall k | 0 <= k < |a + b|
      ensures Good(sent, (a + b)[k])
    {
      assert k >= |a| ==> (a + b)[k] == b[k - |a|];
      assert k < |a| ==> (a + b)[k] == a[k];
    }
  }

  lemma {:induction false} FragmentRises(chunk: nat, number: nat, all: seq<seq<byte>>, base: nat, lo: nat, g: nat)
    requires lo <= |all| && g >= 2
    ensures Rising(FragmentGuards(chunk, number, all, base, lo, g), base + lo, base + |all|)
    decreases |all| - lo
  {
    if |all| - lo >= 2 {
      var hi := if lo + g < |all| then lo + g else |all|;
      FragmentRises(chunk, number, all, base, hi, g);
      var one, rest := Guard((base + lo, base + hi), S.FecOver(chunk, number, all, lo, hi)), FragmentGuards(chunk, number, all, base, hi, g);
      assert ([one] + rest)[1..] == rest;
    }
  }

  lemma {:induction false} RisingAppend(a: seq<Guard>, b: seq<Guard>, from: nat, mid: nat, to: nat)
    requires Rising(a, from, mid) && Rising(b, mid, to)
    ensures Rising(a + b, from, to)
    decreases |a|
  {
    if a == [] {
      assert a + b == b;
      RisingEarlier(b, from, mid, to);
    } else {
      assert (a + b)[1..] == a[1..] + b;
      RisingAppend(a[1..], b, a[0].run.1, mid, to);
    }
  }

  lemma RisingEarlier(b: seq<Guard>, from: nat, mid: nat, to: nat)
    requires from <= mid && Rising(b, mid, to)
    ensures Rising(b, from, to)
  {
  }

  /** Every fragment is sliced, and its parity can be written. */
  ghost predicate AllWritable(chunk: nat, g: nat, parts: seq<seq<seq<byte>>>) {
    forall k :: 0 <= k < |parts| ==> S.Sliced(parts[k], chunk) && S.ParityFits(|parts[k]|, g, chunk)
  }

  lemma {:induction false} PartsFit(p: S.Profile, chunks: seq<S.Chunk>, pts: bv64)
    requires S.AllFit(p, chunks, pts)
    ensures Concat(Parts(p, chunks, pts)) == S.AllSlices(p, chunks, pts) && AllWritable(p.Chunk(), p.Group(), Parts(p, chunks, pts))
    decreases |chunks|
  {
    if chunks != [] {
      var all, later := S.SlicesOf(chunks[0], p, pts), Parts(p, chunks[1..], pts + S.PTS_STEP);
      PartsFit(p, chunks[1..], pts + S.PTS_STEP);
      assert ([all] + later)[1..] == later;
      assert S.ParityFits(|all|, p.Group(), p.Chunk());
    }
  }

  lemma {:induction false} GuardsAreGood(sent: seq<Reorder.Ordered>, chunk: nat, g: nat, parts: seq<seq<seq<byte>>>, first: nat, base: nat)
    requires Numbered(Cast(sent, [], [])) && g >= 2 && AllWritable(chunk, g, parts) && Placed(sent, first, base, Concat(parts))
    ensures AllGood(sent, Guards(chunk, g, parts, first, base))
    decreases |parts|
  {
    if parts != [] {
      var all := parts[0];
      PlacedParts(sent, first, base, all, Concat(parts[1..]));
      GuardsAreGood(sent, chunk, g, parts[1..], first, base + |all|);
      FragmentIsGood(sent, chunk, first, base, all, 0, g);
      GoodAppend(sent, FragmentGuards(chunk, first + base, all, base, 0, g), Guards(chunk, g, parts[1..], first, base + |all|));
    }
  }

  lemma {:induction false} GuardsRise(chunk: nat, g: nat, parts: seq<seq<seq<byte>>>, first: nat, base: nat)
    requires g >= 2
    ensures Rising(Guards(chunk, g, parts, first, base), base, base + |Concat(parts)|)
    decreases |parts|
  {
    if parts != [] {
      var all := parts[0];
      GuardsRise(chunk, g, parts[1..], first, base + |all|);
      FragmentRises(chunk, first + base, all, base, 0, g);
      RisingAppend(FragmentGuards(chunk, first + base, all, base, 0, g), Guards(chunk, g, parts[1..], first, base + |all|),
                   base, base + |all|, base + |Concat(parts)|);
    }
  }

  lemma PlacedParts(sent: seq<Reorder.Ordered>, first: nat, base: nat, a: seq<seq<byte>>, b: seq<seq<byte>>)
    requires Placed(sent, first, base, a + b)
    ensures Placed(sent, first, base, a) && Placed(sent, first, base + |a|, b)
  {
    forall i: nat | i < |a|
      ensures PlacedAt(sent, first, base, a, i)
    {
      assert PlacedAt(sent, first, base, a + b, i);
    }
    var later := base + |a|;
    forall i: nat | i < |b|
      ensures PlacedAt(sent, first, later, b, i)
    {
      assert PlacedAt(sent, first, base, a + b, |a| + i);
      assert base + (|a| + i) == base + |a| + i;
    }
  }

  lemma {:induction false} RisingOrder(guards: seq<Guard>, from: nat, to: nat, r: nat, q: nat)
    requires Rising(guards, from, to) && r < q < |guards|
    ensures guards[r].run.1 <= guards[q].run.0
    decreases |guards|
  {
    if r > 0 {
      RisingOrder(guards[1..], guards[0].run.1, to, r - 1, q - 1);
    } else {
      RisingFrom(guards[1..], guards[0].run.1, to, q - 1);
    }
  }

  lemma {:induction false} RisingFrom(guards: seq<Guard>, from: nat, to: nat, q: nat)
    requires Rising(guards, from, to) && q < |guards|
    ensures from <= guards[q].run.0
    decreases |guards|
  {
    if q > 0 {
      RisingFrom(guards[1..], guards[0].run.1, to, q - 1);
    }
  }

  lemma CastIsProtected(sent: seq<Reorder.Ordered>, guards: seq<Guard>, from: nat, to: nat)
    requires Numbered(Cast(sent, [], [])) && AllGood(sent, guards) && Rising(guards, from, to)
    ensures Protected(CastOf(sent, guards))
  {
    var c := CastOf(sent, guards);
    forall r: nat | r < |c.runs|
      ensures Describes(c, r)
    {
      var one := Cast(sent, [guards[r].run], [guards[r].fec]);
      assert Good(sent, guards[r]);
      assert Payloads(one, 0) == Payloads(c, r);
    }
    forall r: nat, q: nat, i: nat | InRun(c, r, i) && InRun(c, q, i)
      ensures r == q
    {
      if r < q {
        RisingOrder(guards, from, to, r, q);
      } else if q < r {
        RisingOrder(guards, from, to, q, r);
      }
    }
  }

  lemma {:induction false} SlicesAreFull(p: S.Profile, chunks: seq<S.Chunk>, pts: bv64)
    ensures forall i :: 0 <= i < |S.AllSlices(p, chunks, pts)| ==> S.AllSlices(p, chunks, pts)[i] != []
    decreases |chunks|
  {
    if chunks != [] {
      SlicesAreFull(p, chunks[1..], pts + S.PTS_STEP);
    }
  }

  /** The parity that a sender writes for a stream protects it. */
  lemma StreamIsProtected(p: S.Profile, chunks: seq<S.Chunk>, pts: bv64, first: nat)
    requires p.fecEnabled && p.fecGroupPackets > 1 && S.AllFit(p, chunks, pts) && 0 < |S.AllSlices(p, chunks, pts)|
    ensures Protected(StreamCast(p, chunks, pts, first))
  {
    var all := S.AllSlices(p, chunks, pts);
    var sent := S.Numbered(first, all);
    StreamIsNumbered(p, chunks, pts, first, sent);
    var parts := Parts(p, chunks, pts);
    PartsFit(p, chunks, pts);
    GuardsAreGood(sent, p.Chunk(), p.Group(), parts, first, 0);
    GuardsRise(p.Chunk(), p.Group(), parts, first, 0);
    CastIsProtected(sent, Guards(p.Chunk(), p.Group(), parts, first, 0), 0, |Concat(parts)|);
  }

  lemma StreamIsNumbered(p: S.Profile, chunks: seq<S.Chunk>, pts: bv64, first: nat, sent: seq<Reorder.Ordered>)
    requires 0 < |S.AllSlices(p, chunks, pts)| && sent == S.Numbered(first, S.AllSlices(p, chunks, pts))
    ensures Numbered(Cast(sent, [], [])) && Placed(sent, first, 0, S.AllSlices(p, chunks, pts))
  {
    var all := S.AllSlices(p, chunks, pts);
    S.NumberedIsConsecutive(first, all);
    SlicesAreFull(p, chunks, pts);
    forall i: nat | i < |all|
      ensures PlacedAt(sent, first, 0, all, i)
    {
    }
  }

  // ---------- It is what the sender writes ----------

  /** The packets carry these descriptions. */
  ghost predicate Carries(fecs: seq<S.Datagram>, guards: seq<Guard>) {
    |fecs| == |guards| && forall k :: 0 <= k < |guards| ==> CarriesOne(fecs[k], guards[k])
  }

  ghost predicate CarriesOne(d: S.Datagram, g: Guard) {
    Fec.Buildable(g.fec.lengths, g.fec.parity) && d.payload == Fec.Build(g.fec)
  }

  lemma FragmentCarries(part: S.Part, number: nat, base: nat, fecSeq: nat)
    requires part.c.group >= 2 && S.Sliced(part.all, part.c.chunk) && S.ParityFits(|part.all|, part.c.group, part.c.chunk)
    ensures Carries(S.FecList(part.c, number, part.all, part.Groups(), fecSeq), FragmentGuards(part.c.chunk, number, part.all, base, 0, part.c.group))
  {
    var runs, guards := part.Groups(), FragmentGuards(part.c.chunk, number, part.all, base, 0, part.c.group);
    var fecs := S.FecList(part.c, number, part.all, runs, fecSeq);
    GuardsAreRuns(part.c.chunk, number, part.all, base, 0, part.c.group);
    S.ParityFitsExactly(|part.all|, part.c.group, part.c.chunk);
    forall k | 0 <= k < |guards|
      ensures CarriesOne(fecs[k], guards[k])
    {
      assert runs[k] in runs && S.Protectable(runs[k], part.c.chunk);
      OneCarries(part, number, runs[k], fecSeq + k, guards[k]);
    }
  }

  lemma OneCarries(part: S.Part, number: nat, run: (nat, nat), fecSeq: nat, g: Guard)
    requires run.0 <= run.1 <= |part.all| && S.Sliced(part.all, part.c.chunk) && S.Protectable(run, part.c.chunk)
    requires g.fec == S.FecOver(part.c.chunk, number, part.all, run.0, run.1)
    ensures CarriesOne(S.FecPacket(part.c, number, part.all, run, fecSeq), g)
  {
    S.FecOverIsBuildable(part.c.chunk, number, part.all, run.0, run.1);
  }

  lemma CarriesAppend(a: seq<S.Datagram>, x: seq<Guard>, b: seq<S.Datagram>, y: seq<Guard>)
    requires Carries(a, x) && Carries(b, y)
    ensures Carries(a + b, x + y)
  {
    forall k | 0 <= k < |x + y|
      ensures CarriesOne((a + b)[k], (x + y)[k])
    {
      assert k < |x| ==> (a + b)[k] == a[k] && (x + y)[k] == x[k];
      assert k >= |x| ==> (a + b)[k] == b[k - |x|] && (x + y)[k] == y[k - |x|];
    }
  }

  /** Every fragment has this chunk and group size, and its parity can be written. */
  ghost predicate Alike(parts: seq<S.Part>, chunk: nat, g: nat) {
    forall k :: 0 <= k < |parts| ==>
                  && parts[k].c.chunk == chunk && parts[k].c.group == g
                  && S.Sliced(parts[k].all, chunk) && S.ParityFits(|parts[k].all|, g, chunk)
  }

  function AllOf(parts: seq<S.Part>): seq<seq<seq<byte>>> {
    if parts == [] then [] else [parts[0].all] + AllOf(parts[1..])
  }

  lemma GuardsStep(parts: seq<S.Part>, chunk: nat, g: nat, first: nat, base: nat, number: nat)
    requires g >= 2 && parts != [] && number == first + base
    ensures Guards(chunk, g, AllOf(parts), first, base) ==
            FragmentGuards(chunk, number, parts[0].all, base, 0, g) + Guards(chunk, g, AllOf(parts[1..]), first, base + |parts[0].all|)
  {
    assert AllOf(parts)[1..] == AllOf(parts[1..]);
  }

  lemma {:induction false} PartsCarry(parts: seq<S.Part>, chunk: nat, g: nat, first: nat, base: nat, number: nat, fecSeq: nat)
    requires g >= 2 && Alike(parts, chunk, g) && number == first + base
    ensures Carries(S.ParityIn(parts, number, fecSeq), Guards(chunk, g, AllOf(parts), first, base))
    decreases |parts|
  {
    if parts != [] {
      var n, k := |parts[0].all|, |parts[0].Groups()|;
      var fecs, guards := S.ParityIn(parts[1..], number + n, fecSeq + k), Guards(chunk, g, AllOf(parts[1..]), first, base + n);
      PartsCarry(parts[1..], chunk, g, first, base + n, number + n, fecSeq + k);
      CarryStep(parts, chunk, g, first, base, number, fecSeq, fecs, guards);
    }
  }

  lemma CarryStep(parts: seq<S.Part>, chunk: nat, g: nat, first: nat, base: nat, number: nat, fecSeq: nat, fecs: seq<S.Datagram>, guards: seq<Guard>)
    requires g >= 2 && Alike(parts, chunk, g) && number == first + base && parts != [] && Carries(fecs, guards)
    requires fecs == S.ParityIn(parts[1..], number + |parts[0].all|, fecSeq + |parts[0].Groups()|)
    requires guards == Guards(chunk, g, AllOf(parts[1..]), first, base + |parts[0].all|)
    ensures Carries(S.ParityIn(parts, number, fecSeq), Guards(chunk, g, AllOf(parts), first, base))
  {
    var part := parts[0];
    FragmentCarries(part, number, base, fecSeq);
    S.ParityStep(parts, number, fecSeq);
    GuardsStep(parts, chunk, g, first, base, number);
    CarriesAppend(S.FecList(part.c, number, part.all, part.Groups(), fecSeq), FragmentGuards(chunk, number, part.all, base, 0, g), fecs, guards);
  }

  lemma {:induction false} PartsAreAlike(ssrc: bv32, fecSsrc: bv32, p: S.Profile, chunks: seq<S.Chunk>, pts: bv64)
    requires S.AllFit(p, chunks, pts)
    ensures Alike(S.PartsOf(ssrc, fecSsrc, p, chunks, pts), p.Chunk(), p.Group()) && AllOf(S.PartsOf(ssrc, fecSsrc, p, chunks, pts)) == Parts(p, chunks, pts)
    decreases |chunks|
  {
    if chunks != [] {
      PartsAreAlike(ssrc, fecSsrc, p, chunks[1..], pts + S.PTS_STEP);
      var one, rest := S.PartOf(ssrc, fecSsrc, p, chunks[0], pts), S.PartsOf(ssrc, fecSsrc, p, chunks[1..], pts + S.PTS_STEP);
      assert ([one] + rest)[1..] == rest;
    }
  }

  /** The cast of a stream is what its sender puts on the wire: the data packets, and the bytes of the parity packets, in order. */
  lemma WireIsCast(ssrc: bv32, fecSsrc: bv32, p: S.Profile, chunks: seq<S.Chunk>, pts: bv64, first: nat, fecSeq: nat)
    requires p.fecEnabled && p.fecGroupPackets > 1 && S.AllFit(p, chunks, pts)
    ensures var parts, c := S.PartsOf(ssrc, fecSsrc, p, chunks, pts), StreamCast(p, chunks, pts, first);
            && S.Content(S.DataIn(parts, first)) == c.sent
            && |S.ParityIn(parts, first, fecSeq)| == |c.fecs|
            && forall k :: 0 <= k < |c.fecs| ==>
                 && Fec.Buildable(c.fecs[k].lengths, c.fecs[k].parity)
                 && S.ParityIn(parts, first, fecSeq)[k].payload == Fec.Build(c.fecs[k])
  {
    var parts := S.PartsOf(ssrc, fecSsrc, p, chunks, pts);
    PartsAreAlike(ssrc, fecSsrc, p, chunks, pts);
    PartsCarry(parts, p.Chunk(), p.Group(), first, 0, first, fecSeq);
    S.PartsSlices(ssrc, fecSsrc, p, chunks, pts);
    S.DataContent(parts, first);
    var fecs, guards := S.ParityIn(parts, first, fecSeq), Guards(p.Chunk(), p.Group(), Parts(p, chunks, pts), first, 0);
    assert forall k :: 0 <= k < |guards| ==> CarriesOne(fecs[k], guards[k]);
  }

  // ---------- The body comes out ----------

  /** What the first m packets of a stream decode to. */
  lemma ReleasedDecodes(script: seq<S.Read>, p: S.Profile, pts: bv64, first: nat, m: nat)
    requires S.ValidReads(script) && S.NoFail(script) && !S.DataAfterStall(script)
    requires m <= |T.PacketsFor(script, p, pts, first)|
    ensures var sent := T.PacketsFor(script, p, pts, first);
            var fed := PsCodec.Feed([], R.PayloadsOf(sent[..m]));
            && fed.outcome.Fine? && Concat(fed.out) <= S.BodyOf(script)
            && (m == |sent| ==> Concat(fed.out) == S.BodyOf(script) && fed.rest == [])
  {
    var chunks := S.PlanOf(script).chunks;
    var all, sent := S.AllSlices(p, chunks, pts), T.PacketsFor(script, p, pts, first);
    T.PayloadsOfNumbered(sent[..m], all[..m]);
    S.PlanFits(script);
    T.PrefixDecodes(p, chunks, pts, m);
    T.ConcatPrefix(PsCodec.Feed([], all[..m]).out, S.PayloadsOf(chunks));
    S.PayloadsConcat(chunks);
    S.WholeBodyIsSent(script);
  }

  /**
   With parity, the body comes out of a lossy network: whatever arrives after the first packet, in
   whatever order, the receiver fails exactly if something lies beyond the window; what is decoded is
   a prefix of the body, and the whole body as soon as every packet arrived or is the only one
   missing in a run whose parity arrived.
   */
  method ReceiveBody(rr: RepairingReceiver, c: Cast, events: seq<Event>, ghost script: seq<S.Read>, ghost p: S.Profile, ghost pts: bv64, ghost first: nat)
    returns (ok: bool, body: seq<byte>)
    requires S.ValidReads(script) && S.NoFail(script) && !S.DataAfterStall(script)
    requires p.fecEnabled && p.fecGroupPackets > 1 && S.AllFit(p, S.PlanOf(script).chunks, pts) && c == StreamCast(p, S.PlanOf(script).chunks, pts, first)
    requires 0 < |c.sent| && SmallRuns(c, rr.tracker.maxRecent) && rr.tracker.maxRecent >= 0 && rr.released == []
    requires Roomy(c, rr.tracker.maxRecent, rr.Window()) && rr.tracker.groups == map[] && rr.tracker.recent == map[]
    requires !rr.reorder.started && rr.reorder.pending == map[] && rr.reorder.expected == 0 && Reorder.Tuned(rr.reorder.View())
    requires AllProper(c, events) && AllClose(c, Started(c, rr.tracker.maxRecent), events)
    modifies rr`released, rr.tracker, rr.reorder
    ensures ok <==> AllReach(c, Started(c, rr.tracker.maxRecent), events, old(rr.Window()))
    ensures AllWithin(c, Started(c, rr.tracker.maxRecent), events, old(rr.Window())) || old(rr.Window()) >= |c.sent| ==> ok
    ensures ok ==> body <= S.BodyOf(script)
    ensures var log := LogAfter(Started(c, rr.tracker.maxRecent), events);
            ok && (forall i: nat :: i < |c.sent| ==> Recoverable(c, log, i)) ==> body == S.BodyOf(script)
  {
    StreamIsProtected(p, S.PlanOf(script).chunks, pts, first);
    ok := rr.Receive(c, events);
    body := [];
    if ok {
      body := Concat(PsCodec.Feed([], R.PayloadsOf(rr.released)).out);
      ReleasedDecodes(script, p, pts, first, |rr.released|);
      assert c.sent[..|c.sent|] == c.sent;
    }
  }
}
