/**
 End to end: a body read by the sender, sliced, numbered, carried in any order the reorder buffer
 tolerates, decoded and cut to the announced length, comes out as the body.
 */
module MediaTunnel {
  import opened Bytes
  import opened Seqs
  import RtpHeader
  import PsCodec
  import Reorder
  import S = MediaSender
  import R = MediaReceiver

  /** The packets a sender produces for a body, as the network may deliver them. */
  function PacketsFor(script: seq<S.Read>, p: S.Profile, pts: bv64, first: nat): seq<Reorder.Ordered> {
    S.Numbered(first, S.AllSlices(p, S.PlanOf(script).chunks, pts))
  }

  /** A sent packet is read back from the wire as it was handed to the socket. */
  lemma WireIsTransparent(d: S.Datagram)
    requires d.header.payloadType == RtpHeader.DATA_PAYLOAD_TYPE || d.header.payloadType == RtpHeader.FEC_PAYLOAD_TYPE
    ensures RtpHeader.Decode(RtpHeader.Encode(d.header, d.payload)) == RtpHeader.Packet(d.header, d.payload)
  {
    RtpHeader.DecodeEncode(d.header, d.payload);
    var data, fec := RtpHeader.DATA_PAYLOAD_TYPE, RtpHeader.FEC_PAYLOAD_TYPE;
    assert data & 0x7F == data && fec & 0x7F == fec;
  }

  lemma {:induction false} PayloadsOfNumbered(packets: seq<Reorder.Ordered>, all: seq<seq<byte>>)
    requires |packets| == |all| && forall i :: 0 <= i < |all| ==> packets[i].payload == all[i]
    ensures R.PayloadsOf(packets) == all
    decreases |all|
  {
    if all != [] {
      PayloadsOfNumbered(packets[1..], all[1..]);
      assert all == [all[0]] + all[1..];
    }
  }

  /** Feeding the first m slices of a stream yields the first chunks of it, and no error. */
  lemma PrefixDecodes(p: S.Profile, chunks: seq<S.Chunk>, pts: bv64, m: nat)
    requires forall k :: 0 <= k < |chunks| ==> |chunks[k].payload| <= PsCodec.MAX_PES_PAYLOAD
    requires m <= |S.AllSlices(p, chunks, pts)|
    ensures var all := S.AllSlices(p, chunks, pts);
            var fed := PsCodec.Feed([], all[..m]);
            && fed.outcome.Fine?
            && fed.out <= S.PayloadsOf(chunks)
            && (m == |all| ==> fed.out == S.PayloadsOf(chunks) && fed.rest == [])
  {
    var all := S.AllSlices(p, chunks, pts);
    var head, tail := Concat(all[..m]), Concat(all[m..]);
    S.AllSlicesConcat(p, chunks, pts);
    ConcatAppend(all[..m], all[m..]);
    assert all == all[..m] + all[m..];
    S.FragmentsDecode(chunks, pts);
    PsCodec.ParseAppend(head, tail);
    PsCodec.SplitInvariance([], all[..m]);
    assert [] + head == head;
    if m == |all| {
      assert tail == [] && head + tail == head;
    }
  }

  lemma {:induction false} ConcatPrefix(a: seq<seq<byte>>, b: seq<seq<byte>>)
    requires a <= b
    ensures Concat(a) <= Concat(b)
    decreases |a|
  {
    if a != [] {
      ConcatPrefix(a[1..], b[1..]);
    }
  }

  /**
   Transparency: for every body whose reader loses nothing, every profile, every cut into reads and
   every tolerated order and repetition of arrivals that begins with the first packet, the decoder
   never fails, what it yields is a prefix of the body, and once every packet has arrived it is the
   body with nothing left over.
   */
  lemma TunnelIsTransparent(script: seq<S.Read>, p: S.Profile, pts: bv64, first: nat, window: int, tolerance: int, arrivals: seq<nat>)
    requires S.ValidReads(script) && S.NoFail(script) && !S.DataAfterStall(script)
    requires arrivals != [] && arrivals[0] == 0
    requires forall i :: 0 <= i < |arrivals| ==> arrivals[i] < |PacketsFor(script, p, pts, first)|
    requires Reorder.AllPlaceable({0}, arrivals[1..])
    requires Reorder.AllInWindow({0}, arrivals[1..], (if window > 0 then window else 8) + (if tolerance >= 0 then tolerance else 2))
    ensures var sent := PacketsFor(script, p, pts, first);
            var r := Reorder.Deliver(Reorder.Fresh(window, tolerance), sent, arrivals);
            var fed := PsCodec.Feed([], R.PayloadsOf(r.released));
            && !r.overflowed
            && fed.outcome.Fine?
            && Concat(fed.out) <= S.BodyOf(script)
            && ((forall n: nat :: n < |sent| ==> n in arrivals) ==>
                  Concat(fed.out) == S.BodyOf(script) && fed.rest == [])
  {
    var chunks := S.PlanOf(script).chunks;
    var all, sent := S.AllSlices(p, chunks, pts), PacketsFor(script, p, pts, first);
    S.NumberedIsConsecutive(first, all);
    assert Reorder.UpTo(0) == {0};
    Reorder.ReorderIsExact(window, tolerance, sent, arrivals);
    var arrived := Reorder.UpTo(0) + Reorder.Arrived(arrivals);
    var m := Reorder.FirstMissing(arrived);
    var r := Reorder.Deliver(Reorder.Fresh(window, tolerance), sent, arrivals);
    assert r.released == sent[..m];
    PayloadsOfNumbered(sent[..m], all[..m]);
    S.PlanFits(script);
    PrefixDecodes(p, chunks, pts, m);
    var fed := PsCodec.Feed([], all[..m]);
    ConcatPrefix(fed.out, S.PayloadsOf(chunks));
    S.PayloadsConcat(chunks);
    S.WholeBodyIsSent(script);
    if forall n: nat :: n < |sent| ==> n in arrivals {
      assert m < |sent| ==> m in arrived;
    }
  }

  lemma {:induction false} StreamOfChunks(chunks: seq<seq<byte>>)
    ensures R.Stream(R.ChunkEvents(chunks)) == Concat(chunks)
    decreases |chunks|
  {
    if chunks != [] {
      StreamOfChunks(chunks[1..]);
      assert R.ChunkEvents(chunks)[1..] == R.ChunkEvents(chunks[1..]);
    }
  }

  /** With the length announced up front and every packet in, exactly that much of the body is written. */
  lemma TunnelDelivers(script: seq<S.Read>, p: S.Profile, pts: bv64, first: nat, window: int, tolerance: int, arrivals: seq<nat>, limit: nat)
    requires S.ValidReads(script) && S.NoFail(script) && !S.DataAfterStall(script)
    requires arrivals != [] && arrivals[0] == 0
    requires forall i :: 0 <= i < |arrivals| ==> arrivals[i] < |PacketsFor(script, p, pts, first)|
    requires forall n: nat :: n < |PacketsFor(script, p, pts, first)| ==> n in arrivals
    requires Reorder.AllPlaceable({0}, arrivals[1..])
    requires Reorder.AllInWindow({0}, arrivals[1..], (if window > 0 then window else 8) + (if tolerance >= 0 then tolerance else 2))
    requires limit <= |S.BodyOf(script)|
    ensures var r := Reorder.Deliver(Reorder.Fresh(window, tolerance), PacketsFor(script, p, pts, first), arrivals);
            var fed := PsCodec.Feed([], R.PayloadsOf(r.released));
            var events := [R.SetExpected(limit)] + R.ChunkEvents(fed.out) + [R.LoopTop];
            R.Run(R.FRESH, events) == R.State(limit, S.BodyOf(script)[..limit], true)
  {
    TunnelIsTransparent(script, p, pts, first, window, tolerance, arrivals);
    var r := Reorder.Deliver(Reorder.Fresh(window, tolerance), PacketsFor(script, p, pts, first), arrivals);
    var fed := PsCodec.Feed([], R.PayloadsOf(r.released));
    ChunksToLimit(fed.out, limit);
  }

  lemma ChunksToLimit(chunks: seq<seq<byte>>, limit: nat)
    requires limit <= |Concat(chunks)|
    ensures R.Run(R.FRESH, [R.SetExpected(limit)] + R.ChunkEvents(chunks) + [R.LoopTop]) ==
            R.State(limit, Concat(chunks)[..limit], true)
  {
    var middle := R.ChunkEvents(chunks);
    var told := [R.SetExpected(limit)];
    var events := [] + told + middle;
    assert told + middle == events;
    R.RunAppend(R.FRESH, told + middle, [R.LoopTop]);
    NoLengthInChunks(chunks, limit);
    R.AnnouncedLengthIsMet([], limit, middle);
    StreamOfChunks(chunks);
    assert R.Stream(events) == Concat(chunks) by {
      assert events[1..] == middle;
    }
    R.RunAppend(R.FRESH, told, middle);
    assert R.Run(R.FRESH, told) == R.State(limit, [], false) by {
      assert told[1..] == [];
    }
    R.LengthIsMet(R.State(limit, [], false), middle, limit);
    var s := R.Run(R.FRESH, told + middle);
    assert R.Run(s, [R.LoopTop]) == R.AfterLoopTop(s) by {
      assert [R.LoopTop][1..] == [];
    }
  }

  lemma {:induction false} NoLengthInChunks(chunks: seq<seq<byte>>, limit: nat)
    ensures R.NeverBelow(R.ChunkEvents(chunks), limit)
    decreases |chunks|
  {
    if chunks != [] {
      NoLengthInChunks(chunks[1..], limit);
      var events := R.ChunkEvents(chunks);
      assert forall i :: 0 < i < |events| ==> events[i] == events[1..][i - 1];
      assert events[1..] == R.ChunkEvents(chunks[1..]);
    }
  }
}
