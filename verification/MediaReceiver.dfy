/**
 The receiving end of the media tunnel: decoded chunks are written out up to an expected length
 that may become known late and may only ever be lowered.
 */
module MediaReceiver {
  import opened Bytes
  import opened Seqs
  import Reorder
  import PsCodec

  // ---------- Specification ----------

  /** `expected` is negative while no length is known. */
  datatype State = State(expected: int, written: seq<byte>, finished: bool)

  const FRESH := State(-1, [], false)

  datatype Event =
    | SetExpected(length: int)    // another goroutine announces a length
    | Decoded(chunk: seq<byte>)   // the decoder yields a chunk
    | LoopTop                     // the receive loop comes round

  function AfterSet(s: State, length: int): State {
    if length >= 0 && (s.expected < 0 || length < s.expected) then s.(expected := length) else s
  }

  function AfterChunk(s: State, chunk: seq<byte>): State {
    if s.finished || chunk == [] then s
    else if s.expected < 0 then s.(written := s.written + chunk)
    else
      var remaining := s.expected - |s.written|;
      if remaining <= 0 then s.(finished := true)
      else s.(written := s.written + (if |chunk| > remaining then chunk[..remaining] else chunk))
  }

  function AfterLoopTop(s: State): State {
    if s.expected >= 0 && |s.written| >= s.expected then s.(finished := true) else s
  }

  function Step(s: State, e: Event): State {
    match e
    case SetExpected(length) => AfterSet(s, length)
    case Decoded(chunk) => AfterChunk(s, chunk)
    case LoopTop => AfterLoopTop(s)
  }

  function Run(s: State, events: seq<Event>): State
    decreases |events|
  {
    if events == [] then s else Run(Step(s, events[0]), events[1..])
  }

  /** Everything the decoder yields during a run. */
  function Stream(events: seq<Event>): seq<byte> {
    if events == [] then []
    else (if events[0].Decoded? then events[0].chunk else []) + Stream(events[1..])
  }

  // ---------- What is written is a prefix of what was decoded ----------

  /** Nothing has been withheld yet, or the expected length has been reached. */
  ghost predicate Faithful(s: State, stream: seq<byte>) {
    && s.written <= stream
    && (s.written == stream || (s.expected >= 0 && |s.written| >= s.expected))
  }

  lemma StepIsFaithful(s: State, stream: seq<byte>, e: Event)
    requires Faithful(s, stream) && (s.finished ==> s.expected >= 0 && |s.written| >= s.expected)
    ensures var s', more := Step(s, e), if e.Decoded? then e.chunk else [];
            && Faithful(s', stream + more)
            && (s'.finished ==> s'.expected >= 0 && |s'.written| >= s'.expected)
  {
    if e.Decoded? {
      assert s.written == stream ==> s.written + e.chunk == stream + e.chunk;
    } else {
      assert stream + [] == stream;
    }
  }

  lemma {:induction false} RunIsFaithful(s: State, stream: seq<byte>, events: seq<Event>)
    requires Faithful(s, stream) && (s.finished ==> s.expected >= 0 && |s.written| >= s.expected)
    ensures Faithful(Run(s, events), stream + Stream(events))
    decreases |events|
  {
    if events == [] {
      assert stream + [] == stream;
    } else {
      var more := if events[0].Decoded? then events[0].chunk else [];
      StepIsFaithful(s, stream, events[0]);
      RunIsFaithful(Step(s, events[0]), stream + more, events[1..]);
      AppendAssoc(stream, more, Stream(events[1..]));
    }
  }

  /** For every interleaving of length updates, chunks and loop turns, a prefix of the stream is
      written; it is the whole stream as long as the expected length has not been reached. */
  lemma WrittenIsPrefix(events: seq<Event>)
    ensures var s := Run(FRESH, events);
            && s.written <= Stream(events)
            && (s.expected < 0 || |s.written| < s.expected ==> s.written == Stream(events))
  {
    RunIsFaithful(FRESH, [], events);
    assert [] + Stream(events) == Stream(events);
  }

  // ---------- A length known in time is met exactly ----------

  /** No event announces a length below `limit`. */
  predicate NeverBelow(events: seq<Event>, limit: nat) {
    forall i :: 0 <= i < |events| && events[i].SetExpected? ==> events[i].length < 0 || events[i].length >= limit
  }

  lemma {:induction false} LengthIsMet(s: State, events: seq<Event>, limit: nat)
    requires s.expected == limit && |s.written| <= limit && NeverBelow(events, limit)
    requires s.finished ==> |s.written| == limit
    ensures var s' := Run(s, events);
            s'.expected == limit && |s'.written| <= limit && (s'.finished ==> |s'.written| == limit)
    decreases |events|
  {
    if events != [] {
      var s1 := Step(s, events[0]);
      assert events[0].SetExpected? ==> s1 == s;
      LengthIsMet(s1, events[1..], limit);
    }
  }

  /** A length announced before that many bytes were written, and not lowered later, is what a
      finished receiver has written: the first `limit` bytes of the stream. */
  lemma AnnouncedLengthIsMet(before: seq<Event>, limit: nat, later: seq<Event>)
    requires var s := Run(FRESH, before); !s.finished && |s.written| <= limit && (s.expected < 0 || limit < s.expected)
    requires NeverBelow(later, limit)
    ensures var events := before + [SetExpected(limit)] + later;
            var s := Run(FRESH, events);
            && s.written <= Stream(events)
            && |s.written| <= limit
            && (s.finished ==> limit <= |Stream(events)| && s.written == Stream(events)[..limit])
            && (!s.finished && |Stream(events)| >= limit ==> s.written == Stream(events)[..limit])
  {
    var events := before + [SetExpected(limit)] + later;
    RunAppend(FRESH, before + [SetExpected(limit)], later);
    RunAppend(FRESH, before, [SetExpected(limit)]);
    var s1 := Run(FRESH, before + [SetExpected(limit)]);
    assert s1 == AfterSet(Run(FRESH, before), limit) by {
      assert [SetExpected(limit)][1..] == [];
    }
    LengthIsMet(s1, later, limit);
    WrittenIsPrefix(events);
  }

  lemma {:induction false} RunAppend(s: State, a: seq<Event>, b: seq<Event>)
    ensures Run(s, a + b) == Run(Run(s, a), b)
    decreases |a|
  {
    if a == [] {
      assert a + b == b;
    } else {
      RunAppend(Step(s, a[0]), a[1..], b);
      assert (a + b)[1..] == a[1..] + b;
    }
  }

  // ---------- The receiver itself ----------

  datatype Status = Receiving | Complete | Failed(reason: string)

  function ChunkEvents(chunks: seq<seq<byte>>): seq<Event> {
    if chunks == [] then [] else [Decoded(chunks[0])] + ChunkEvents(chunks[1..])
  }

  class BodyReceiver {
    var expectedBytes: int
    var written: seq<byte>
    var finished: bool
    const decoder: PsCodec.ProgramStreamDecoder

    function View(): State
      reads this
    {
      State(expectedBytes, written, finished)
    }

    constructor ()
      ensures View() == FRESH && decoder.buf == [] && fresh(decoder)
    {
      expectedBytes, written, finished := -1, [], false;
      decoder := new PsCodec.ProgramStreamDecoder();
    }

    method SetExpectedBytes(v: int)
      modifies this
      ensures View() == AfterSet(old(View()), v)
    {
      if v < 0 {
        return;
      }
      if expectedBytes < 0 || v < expectedBytes {
        expectedBytes := v;
      }
    }

    /** Feeds the payloads of ordered packets to the decoder and writes what comes out. */
    method ProcessOrderedPackets(packets: seq<Reorder.Ordered>) returns (status: Status)
      requires !finished
      modifies this, decoder
      ensures var fed := PsCodec.Feed(old(decoder.buf), PayloadsOf(packets));
              && (status.Receiving? ==>
                    && fed.outcome.Fine? && decoder.buf == fed.rest && !finished
                    && View() == Run(old(View()), ChunkEvents(fed.out)))
              && (status.Failed? ==>
                    fed.outcome.Broken? && exists done :: done <= fed.out && View() == Run(old(View()), ChunkEvents(done)))
              && (status.Complete? ==> finished && View() == Run(old(View()), ChunkEvents(fed.out)))
    {
      var i := 0;
      ghost var was, buf0 := View(), decoder.buf;
      ghost var fed := PsCodec.Feed(buf0, PayloadsOf(packets));
      ghost var done: seq<seq<byte>> := [];
      while i < |packets|
        invariant 0 <= i <= |packets| && !finished
        invariant fed == PsCodec.After(done, PsCodec.Feed(decoder.buf, PayloadsOf(packets[i..])))
        invariant View() == Run(was, ChunkEvents(done))
      {
        FeedStep(decoder.buf, packets[i..]);
        var chunks, outcome := decoder.Write(packets[i].payload);
        if outcome.Broken? {
          assert done <= fed.out;
          return Failed(outcome.reason);
        }
        ghost var tail := PsCodec.Feed(decoder.buf, PayloadsOf(packets[i + 1..]));
        AppendAssoc(done, chunks, tail.out);
        EventsAppend(done, chunks);
        RunAppend(was, ChunkEvents(done), ChunkEvents(chunks));
        WriteChunks(chunks);
        done := done + chunks;
        if finished {
          FinishedStays(was, done, tail.out);
          return Complete;
        }
        assert packets[i..][1..] == packets[i + 1..];
        i := i + 1;
      }
      assert done + [] == done;
      status := Receiving;
    }

    method WriteChunks(chunks: seq<seq<byte>>)
      modifies this
      ensures View() == Run(old(View()), ChunkEvents(chunks))
    {
      var j := 0;
      while j < |chunks|
        invariant 0 <= j <= |chunks|
        invariant Run(old(View()), ChunkEvents(chunks)) == Run(View(), ChunkEvents(chunks[j..]))
      {
        assert chunks[j..][1..] == chunks[j + 1..];
        WriteChunk(chunks[j]);
        j := j + 1;
      }
    }

    method WriteChunk(chunk: seq<byte>)
      modifies this
      ensures View() == AfterChunk(old(View()), chunk)
    {
      if finished || chunk == [] {
        return;
      }
      var kept := chunk;
      if expectedBytes >= 0 {
        var remaining := expectedBytes - |written|;
        if remaining <= 0 {
          finished := true;
          return;
        }
        if |kept| > remaining {
          kept := kept[..remaining];
        }
      }
      written := written + kept;
    }

    /** The completion check at the top of the receive loop. */
    method CheckComplete()
      modifies this
      ensures View() == AfterLoopTop(old(View()))
    {
      if expectedBytes >= 0 && |written| >= expectedBytes {
        finished := true;
      }
    }
  }

  function PayloadsOf(packets: seq<Reorder.Ordered>): seq<seq<byte>> {
    if packets == [] then [] else [packets[0].payload] + PayloadsOf(packets[1..])
  }

  lemma FeedStep(buf: seq<byte>, packets: seq<Reorder.Ordered>)
    requires packets != []
    ensures var p := if packets[0].payload == [] then PsCodec.Parsed([], buf, PsCodec.Fine)
                     else PsCodec.Parse(buf + packets[0].payload);
            PsCodec.Feed(buf, PayloadsOf(packets)) ==
            if p.outcome.Broken? then p else PsCodec.After(p.out, PsCodec.Feed(p.rest, PayloadsOf(packets[1..])))
  {
    assert PayloadsOf(packets)[1..] == PayloadsOf(packets[1..]);
  }

  lemma {:induction false} EventsAppend(a: seq<seq<byte>>, b: seq<seq<byte>>)
    ensures ChunkEvents(a + b) == ChunkEvents(a) + ChunkEvents(b)
    decreases |a|
  {
    if a == [] {
      assert a + b == b;
    } else {
      EventsAppend(a[1..], b);
      assert (a + b)[1..] == a[1..] + b;
      AppendAssoc([Decoded(a[0])], ChunkEvents(a[1..]), ChunkEvents(b));
    }
  }

  /** Chunks that come after completion change nothing. */
  lemma FinishedStays(s: State, a: seq<seq<byte>>, b: seq<seq<byte>>)
    requires Run(s, ChunkEvents(a)).finished
    ensures Run(s, ChunkEvents(a + b)) == Run(s, ChunkEvents(a))
  {
    EventsAppend(a, b);
    RunAppend(s, ChunkEvents(a), ChunkEvents(b));
    FinishedIgnores(Run(s, ChunkEvents(a)), b);
  }

  lemma {:induction false} FinishedIgnores(s: State, b: seq<seq<byte>>)
    requires s.finished
    ensures Run(s, ChunkEvents(b)) == s
    decreases |b|
  {
    if b != [] {
      FinishedIgnores(s, b[1..]);
      assert ChunkEvents(b)[1..] == ChunkEvents(b[1..]);
    }
  }
}
