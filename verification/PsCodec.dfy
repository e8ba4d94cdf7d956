/**
 The MPEG program stream codec of the media tunnel: pack headers and PES packets as the
 streaming sender writes them, and the incremental decoder the receiver feeds with RTP payloads.
 */
module PsCodec {
  import opened Bytes
  import opened Seqs

  const MAX_PES_PAYLOAD := 0xFFFF - 8
  const STATIC_PES_PAYLOAD := 60000
  const MASK33: bv64 := 0x1_FFFF_FFFF

  // ---------- Writing ----------

  function Low8(x: bv64): byte {
    (x & 0xFF) as bv8
  }

  /** A 14-byte pack header with no stuffing; its clock field is section 2.5.3.3 of ISO/IEC 13818-1. */
  function PackHeader(scr: bv64): (s: seq<byte>)
    ensures |s| == 14
  {
    [0x00, 0x00, 0x01, 0xBA,
     0x44 | Low8((scr >> 27) & 0x38) | Low8((scr >> 28) & 0x03),
     Low8(scr >> 20),
     Low8(((scr >> 12) & 0xF8) | 0x04 | ((scr >> 13) & 0x03)),
     Low8(scr >> 5),
     Low8(((scr & 0x1F) << 3) | 0x04),
     0x01,
     Low8(0x80 | ((50000 >> 15) & 0x7F)), Low8(50000 >> 7), Low8(((50000 & 0x7F) << 1) | 0x01),
     0xF8]
  }

  function EncodePts(pts: bv64): (s: seq<byte>)
    ensures |s| == 5
  {
    [Low8(0x20 | (((pts >> 30) & 0x07) << 1) | 0x01),
     Low8(pts >> 22),
     Low8((((pts >> 15) & 0x7F) << 1) | 0x01),
     Low8(pts >> 7),
     Low8(((pts & 0x7F) << 1) | 0x01)]
  }

  /** The length field of a PES packet: zero when the real length does not fit. */
  function PesLength(payload: seq<byte>): u16 {
    if |payload| + 8 > 0xFFFF then 0 else |payload| + 8
  }

  function Pes(payload: seq<byte>, pts: bv64): (s: seq<byte>)
    ensures |s| == 14 + |payload| && s[0] == 0 && s[1] == 0
  {
    [0x00, 0x00, 0x01, 0xBD] + Put16(PesLength(payload)) + [0x80, 0x80, 0x05] + EncodePts(pts & MASK33) + payload
  }

  function Fragment(payload: seq<byte>, pts: bv64): seq<byte> {
    PackHeader(pts) + Pes(payload, pts)
  }

  const SYSTEM_HEADER: seq<byte> :=
    [0x00, 0x00, 0x01, 0xBB, 0x00, 0x09, 0x80, 0x04, 0x04, 0xE1, 0x7F, 0xE0, 0xBD, 0xE0, 0x00]

  /** The map announces 18 bytes behind its length field and has 16. */
  const STREAM_MAP: seq<byte> :=
    [0x00, 0x00, 0x01, 0xBC, 0x00, 0x12, 0xE0, 0xFF, 0x00, 0x00, 0x00, 0x08, 0x90, 0xBD,
     0x00, 0x00, 0x00, 0x00, 0x00, 0x00, 0x00, 0x00]

  // ---------- The clock fields can be read back ----------

  /** The system clock reference base, bit by bit as the standard lays it out. */
  function ReadScr(s: seq<byte>): bv64
    requires |s| == 14
  {
    (((s[4] & 0x38) as bv64) << 27) | (((s[4] & 0x03) as bv64) << 28) | ((s[5] as bv64) << 20)
    | (((s[6] & 0xF8) as bv64) << 12) | (((s[6] & 0x03) as bv64) << 13) | ((s[7] as bv64) << 5)
    | ((s[8] & 0xF8) as bv64 >> 3)
  }

  function ReadPts(s: seq<byte>): bv64
    requires |s| == 5
  {
    (((s[0] & 0x0E) as bv64) << 29) | ((s[1] as bv64) << 22) | (((s[2] & 0xFE) as bv64) << 14)
    | ((s[3] as bv64) << 7) | ((s[4] & 0xFE) as bv64 >> 1)
  }

  predicate ScrMarkersSet(s: seq<byte>)
    requires |s| == 14
  {
    s[4] & 0xC4 == 0x44 && s[6] & 0x04 == 0x04 && s[8] & 0x04 == 0x04 && s[9] & 0x01 == 0x01
  }

  predicate PtsMarkersSet(s: seq<byte>)
    requires |s| == 5
  {
    s[0] & 0xF1 == 0x21 && s[2] & 0x01 == 0x01 && s[4] & 0x01 == 0x01
  }

  lemma ScrRoundTrip(scr: bv64)
    ensures ReadScr(PackHeader(scr)) == scr & MASK33 && ScrMarkersSet(PackHeader(scr))
  {
  }

  lemma PtsRoundTrip(pts: bv64)
    ensures ReadPts(EncodePts(pts & MASK33)) == pts & MASK33 && PtsMarkersSet(EncodePts(pts & MASK33))
  {
  }

  /** The program multiplex rate in units of 50 bytes per second, and its markers. */
  lemma MuxRateIs(scr: bv64)
    ensures var s := PackHeader(scr);
            && (((s[10] & 0x7F) as bv64) << 15) | ((s[11] as bv64) << 7) | ((s[12] as bv64) >> 1) == 50000
            && s[10] & 0x80 == 0x80 && s[12] & 0x01 == 0x01 && s[13] & 0x07 == 0
  {
  }

  /** Where everything stands in a written fragment: the clock, the stamp and the payload can be read back from its bytes. */
  lemma FragmentLayout(payload: seq<byte>, pts: bv64)
    ensures var s := Fragment(payload, pts);
            && |s| == 28 + |payload| && s[28..] == payload
            && s[..4] == [0x00, 0x00, 0x01, 0xBA] && ReadScr(s[..14]) == pts & 0x1_FFFF_FFFF
            && s[14..18] == [0x00, 0x00, 0x01, 0xBD] && s[20..23] == [0x80, 0x80, 0x05] && ReadPts(s[23..28]) == pts & 0x1_FFFF_FFFF
  {
    ScrRoundTrip(pts);
    PtsRoundTrip(pts);
    PackStarts(pts);
    FragmentSlices(PackHeader(pts), Put16(PesLength(payload)), EncodePts(pts & MASK33), payload, Fragment(payload, pts));
  }

  lemma PackStarts(scr: bv64)
    ensures PackHeader(scr)[..4] == [0x00, 0x00, 0x01, 0xBA]
  {
  }

  lemma FragmentSlices(pack: seq<byte>, length: seq<byte>, stamp: seq<byte>, payload: seq<byte>, s: seq<byte>)
    requires |pack| == 14 && |length| == 2 && |stamp| == 5
    requires s == pack + ([0x00, 0x00, 0x01, 0xBD] + length + [0x80, 0x80, 0x05] + stamp + payload)
    ensures |s| == 28 + |payload| && s[28..] == payload && s[..14] == pack && s[..4] == pack[..4]
    ensures s[14..18] == [0x00, 0x00, 0x01, 0xBD] && s[20..23] == [0x80, 0x80, 0x05] && s[23..28] == stamp
  {
  }

  // ---------- Reading: the specification ----------

  predicate IsStart(s: seq<byte>, i: int) {
    0 <= i && i + 3 <= |s| && s[i] == 0 && s[i + 1] == 0 && s[i + 2] == 1
  }

  /** The first position at or after `from` where a start code prefix begins, or -1. */
  function FindStart(s: seq<byte>, from: nat): (i: int)
    requires from <= |s|
    ensures i == -1 || (from <= i && IsStart(s, i))
    ensures forall j :: from <= j < (if i < 0 then |s| else i) ==> !IsStart(s, j)
    decreases |s| - from
  {
    if from == |s| then -1 else if IsStart(s, from) then from else FindStart(s, from + 1)
  }

  datatype Section =
    | Wait
    | Skip(total: nat)
    | Emit(payload: seq<byte>, total: nat)
    | Bad(reason: string)

  function SizedSection(buf: seq<byte>): (r: Section)
    requires |buf| >= 4
    ensures r.Skip? ==> 0 < r.total <= |buf|
    ensures r.Wait? || r.Skip?
  {
    if |buf| < 6 then Wait
    else
      var total := 6 + Get16(buf[4], buf[5]);
      if |buf| < total then Wait else Skip(total)
  }

  /** What the decoder does with a buffer that begins with a start code. */
  function NextSection(buf: seq<byte>): (r: Section)
    requires |buf| >= 4
    ensures r.Skip? || r.Emit? ==> 0 < r.total <= |buf|
  {
    if buf[3] == 0xBA then
      if |buf| < 14 then Wait
      else
        var total := 14 + (buf[13] & 0x07) as int;
        if |buf| < total then Wait else Skip(total)
    else if buf[3] == 0xBD then
      if |buf| < 9 then Wait
      else
        PesSection(buf, Get16(buf[4], buf[5]), buf[8] as int)
    else SizedSection(buf)
  }

  function PesSection(buf: seq<byte>, pesLen: nat, headerDataLen: nat): (r: Section)
    ensures r.Emit? ==> 0 < r.total <= |buf|
    ensures !r.Skip?
  {
    if pesLen == 0 then Bad("mpeg-ps pes length zero is not supported")
    else
      var total := 6 + pesLen;
      if |buf| < total then Wait
      else
        var payloadStart := 9 + headerDataLen;
        if payloadStart > total then Bad("mpeg-ps pes payload invalid")
        else Emit(buf[payloadStart..total], total)
  }

  datatype Outcome = Fine | Broken(reason: string)

  datatype Parsed = Parsed(out: seq<seq<byte>>, rest: seq<byte>, outcome: Outcome)

  function After(out: seq<seq<byte>>, p: Parsed): Parsed {
    p.(out := out + p.out)
  }

  /** Everything a decoder holding `buf` emits, what it keeps, and whether it failed. */
  function Parse(buf: seq<byte>): Parsed
    decreases |buf|
  {
    if |buf| < 4 then Parsed([], buf, Fine)
    else
      var idx := FindStart(buf, 0);
      if idx < 0 then Parsed([], buf[|buf| - 3..], Fine) else ParseAligned(buf[idx..])
  }

  function ParseAligned(buf: seq<byte>): Parsed
    decreases |buf|, 1
  {
    if |buf| < 4 then Parsed([], buf, Fine) else Proceed(buf, NextSection(buf))
  }

  function Proceed(buf: seq<byte>, section: Section): Parsed
    requires section.Skip? || section.Emit? ==> 0 < section.total <= |buf|
    decreases |buf|, 0
  {
    match section
    case Wait => Parsed([], buf, Fine)
    case Bad(reason) => Parsed([], buf, Broken(reason))
    case Skip(n) => Parse(buf[n..])
    case Emit(payload, n) => After([payload], Parse(buf[n..]))
  }

  // ---------- Split invariance ----------

  lemma FindStartAt(s: seq<byte>, from: nat, i: nat)
    requires from <= |s| && from <= i && IsStart(s, i)
    requires forall j :: from <= j < i ==> !IsStart(s, j)
    ensures FindStart(s, from) == i
  {
  }

  lemma FindStartNone(s: seq<byte>)
    requires forall j :: 0 <= j < |s| ==> !IsStart(s, j)
    ensures FindStart(s, 0) == -1
  {
  }

  lemma StartInSuffix(x: seq<byte>, k: nat, j: nat)
    requires k + j <= |x|
    ensures IsStart(x, k + j) <==> IsStart(x[k..], j)
  {
  }

  /** Dropping bytes in front of the first start code does not change what is decoded. */
  lemma ParseFromStart(x: seq<byte>)
    requires |x| >= 4 && FindStart(x, 0) >= 0
    ensures Parse(x) == Parse(x[FindStart(x, 0)..])
  {
    var i := FindStart(x, 0);
    StartInSuffix(x, i, 0);
    FindStartAt(x[i..], 0, 0);
    assert x[i..][0..] == x[i..];
  }

  /** Keeping only the last three bytes of a buffer without a start code loses nothing. */
  lemma ParseLastThree(a: seq<byte>, b: seq<byte>)
    requires |a| >= 4 && FindStart(a, 0) < 0
    ensures Parse(a + b) == Parse(a[|a| - 3..] + b)
  {
    var k := |a| - 3;
    var x, y := a + b, a[k..] + b;
    assert y == x[k..];
    forall j | 0 <= j < |a| - 2
      ensures !IsStart(x, j)
    {
      assert IsStart(x, j) == IsStart(a, j);
    }
    if b == [] {
      assert x == a && y == a[k..];
    } else {
      var i := FindStart(x, 0);
      if i < 0 {
        forall j | 0 <= j < |y|
          ensures !IsStart(y, j)
        {
          StartInSuffix(x, k, j);
        }
        FindStartNone(y);
      } else {
        forall j | 0 <= j < i - k
          ensures !IsStart(y, j)
        {
          StartInSuffix(x, k, j);
        }
        StartInSuffix(x, k, i - k);
        FindStartAt(y, 0, i - k);
        assert x[i..] == y[i - k..];
      }
    }
  }

  lemma SectionExtends(c: seq<byte>, b: seq<byte>)
    requires |c| >= 4
    ensures !NextSection(c).Wait? ==> NextSection(c + b) == NextSection(c)
  {
    var x := c + b;
    assert x[3] == c[3];
    if |c| >= 6 {
      assert x[4] == c[4] && x[5] == c[5];
    }
    if |c| >= 9 {
      assert x[8] == c[8];
      PesExtends(c, b, Get16(c[4], c[5]), c[8] as int);
    }
    if |c| >= 14 {
      assert x[13] == c[13];
    }
  }

  lemma PesExtends(c: seq<byte>, b: seq<byte>, pesLen: nat, headerDataLen: nat)
    ensures !PesSection(c, pesLen, headerDataLen).Wait? ==>
              PesSection(c + b, pesLen, headerDataLen) == PesSection(c, pesLen, headerDataLen)
  {
    if 9 + headerDataLen <= 6 + pesLen <= |c| {
      assert (c + b)[9 + headerDataLen..6 + pesLen] == c[9 + headerDataLen..6 + pesLen];
    }
  }

  /**
   Split invariance: decoding `a + b` at once is decoding `a`, then `b` behind what `a` left.
   After an error the decoder's output is final and the rest of the stream only piles up.
   */
  lemma {:induction false} ParseAppend(a: seq<byte>, b: seq<byte>)
    ensures Parse(a + b) == Resumed(Parse(a), b)
    decreases |a|, 2
  {
    if |a| < 4 {
    } else if FindStart(a, 0) < 0 {
      ParseLastThree(a, b);
    } else {
      var i := FindStart(a, 0);
      StartsCarryOver(a, b, i);
      assert (a + b)[i..] == a[i..] + b;
      StartInSuffix(a, i, 0);
      AlignedAppend(a[i..], b);
    }
  }

  /** Decoding goes on with `b` behind the residue of `p`, unless `p` already failed. */
  function Resumed(p: Parsed, b: seq<byte>): Parsed {
    if p.outcome.Fine? then After(p.out, Parse(p.rest + b)) else p.(rest := p.rest + b)
  }

  lemma {:induction false} AlignedAppend(c: seq<byte>, b: seq<byte>)
    requires IsStart(c, 0)
    ensures ParseAligned(c + b) == Resumed(ParseAligned(c), b)
    decreases |c|, 1
  {
    AlignedIsParse(c + b);
    if |c| >= 4 && !NextSection(c).Wait? {
      SectionExtends(c, b);
      ProceedAppend(c, b, NextSection(c));
    }
  }

  lemma {:induction false} ProceedAppend(c: seq<byte>, b: seq<byte>, section: Section)
    requires section.Skip? || section.Emit? ==> 0 < section.total <= |c|
    requires !section.Wait?
    ensures Proceed(c + b, section) == Resumed(Proceed(c, section), b)
    decreases |c|, 0
  {
    if section.Skip? || section.Emit? {
      assert (c + b)[section.total..] == c[section.total..] + b;
      ParseAppend(c[section.total..], b);
    }
  }

  /** A buffer that begins with a start code is decoded section by section. */
  lemma ParseStep(c: seq<byte>)
    requires |c| >= 4 && IsStart(c, 0)
    ensures Parse(c) == Proceed(c, NextSection(c))
  {
    AlignedIsParse(c);
  }

  lemma AlignedIsParse(c: seq<byte>)
    requires IsStart(c, 0)
    ensures Parse(c) == ParseAligned(c)
  {
    FindStartAt(c, 0, 0);
    assert c[0..] == c;
  }

  lemma StartsCarryOver(a: seq<byte>, b: seq<byte>, i: nat)
    requires FindStart(a, 0) == i
    ensures FindStart(a + b, 0) == i
  {
    forall j | 0 <= j < i
      ensures !IsStart(a + b, j)
    {
      assert IsStart(a + b, j) == IsStart(a, j);
    }
    FindStartAt(a + b, 0, i);
  }

  /** What a decoder keeps between writes needs more bytes before anything else can happen. */
  lemma RestIsStable(a: seq<byte>)
    requires Parse(a).outcome.Fine?
    ensures Parse(Parse(a).rest) == Parsed([], Parse(a).rest, Fine)
  {
    ParseAppend(a, []);
    assert a + [] == a && Parse(a).rest + [] == Parse(a).rest;
  }

  /** An error-free write leaves at most 65540 bytes behind. */
  lemma {:induction false} RestIsBounded(a: seq<byte>)
    requires Parse(a).outcome.Fine?
    ensures |Parse(a).rest| <= 65540
    decreases |a|
  {
    if |a| >= 4 && FindStart(a, 0) >= 0 {
      ParseFromStart(a);
      var c := a[FindStart(a, 0)..];
      if |c| >= 4 {
        StartInSuffix(a, FindStart(a, 0), 0);
        ParseStep(c);
        var section := NextSection(c);
        if section.Wait? {
          WaitIsBounded(c);
        } else if !section.Bad? {
          RestIsBounded(c[section.total..]);
        }
      }
    }
  }

  lemma WaitIsBounded(c: seq<byte>)
    requires |c| >= 4 && NextSection(c).Wait?
    ensures |c| <= 65540
  {
  }

  /** A decoder holding `buf` fed piece by piece, stopping at the first error. */
  function Feed(buf: seq<byte>, pieces: seq<seq<byte>>): Parsed
    decreases |pieces|
  {
    if pieces == [] then Parsed([], buf, Fine)
    else
      var p := if pieces[0] == [] then Parsed([], buf, Fine) else Parse(buf + pieces[0]);
      if p.outcome.Broken? then p else After(p.out, Feed(p.rest, pieces[1..]))
  }

  /** Any cut of a byte stream into writes gives the output, the failure and, without one, the
      residue of a single write. */
  lemma {:induction false} SplitInvariance(buf: seq<byte>, pieces: seq<seq<byte>>)
    requires Parse(buf) == Parsed([], buf, Fine)
    ensures var whole, fed := Parse(buf + Concat(pieces)), Feed(buf, pieces);
            && fed.out == whole.out
            && fed.outcome == whole.outcome
            && (fed.outcome.Fine? ==> fed.rest == whole.rest)
    decreases |pieces|
  {
    if pieces == [] {
      assert buf + Concat(pieces) == buf;
    } else {
      var tail := Concat(pieces[1..]);
      assert buf + Concat(pieces) == (buf + pieces[0]) + tail;
      ParseAppend(buf + pieces[0], tail);
      if pieces[0] == [] {
        assert buf + pieces[0] == buf;
      }
      var p := Parse(buf + pieces[0]);
      if p.outcome.Fine? {
        RestIsStable(buf + pieces[0]);
        SplitInvariance(p.rest, pieces[1..]);
      }
    }
  }

  // ---------- What the decoder makes of a written fragment ----------

  lemma PackHeaderIsSkipped(scr: bv64, tail: seq<byte>)
    ensures Parse(PackHeader(scr) + tail) == Parse(tail)
  {
    var s := PackHeader(scr) + tail;
    assert s[13] == 0xF8 && s[14..] == tail;
    PackLength(s);
    ParseStep(s);
  }

  lemma PackLength(s: seq<byte>)
    requires |s| >= 14 && s[3] == 0xBA && s[13] == 0xF8
    ensures NextSection(s) == Skip(14)
  {
    var none: byte := 0xF8 & 0x07;
    assert none as int == 0;
  }

  lemma PesFields(payload: seq<byte>, pts: bv64, tail: seq<byte>)
    ensures var s := Pes(payload, pts) + tail;
            && |s| == 14 + |payload| + |tail|
            && IsStart(s, 0) && s[3] == 0xBD
            && Get16(s[4], s[5]) == PesLength(payload) && s[8] as int == 5
            && s[14..14 + |payload|] == payload && s[14 + |payload|..] == tail
  {
    var s := Pes(payload, pts) + tail;
    assert s[4..6] == Put16(PesLength(payload)) && s[4..6] == [s[4], s[5]];
    Get16Put16(PesLength(payload));
    var five: byte := 5;
    assert s[8] == five && five as int == 5;
  }

  lemma PesIsEmitted(payload: seq<byte>, pts: bv64, tail: seq<byte>)
    requires |payload| <= MAX_PES_PAYLOAD
    ensures Parse(Pes(payload, pts) + tail) == After([payload], Parse(tail))
  {
    PesFields(payload, pts, tail);
    EmitsSection(Pes(payload, pts) + tail, payload, tail);
  }

  lemma EmitsSection(s: seq<byte>, payload: seq<byte>, tail: seq<byte>)
    requires |s| == 14 + |payload| + |tail| && IsStart(s, 0) && s[3] == 0xBD
    requires Get16(s[4], s[5]) == |payload| + 8 && s[8] as int == 5
    requires s[14..14 + |payload|] == payload && s[14 + |payload|..] == tail
    ensures Parse(s) == After([payload], Parse(tail))
  {
    SectionPayload(s, payload);
    ParseStep(s);
  }

  lemma SectionPayload(s: seq<byte>, payload: seq<byte>)
    requires |s| >= 14 + |payload| && s[3] == 0xBD && Get16(s[4], s[5]) == |payload| + 8 && s[8] as int == 5
    requires s[14..14 + |payload|] == payload
    ensures NextSection(s) == Emit(payload, 14 + |payload|)
  {
    PesPayload(s, payload);
  }

  lemma PesPayload(s: seq<byte>, payload: seq<byte>)
    requires |s| >= 14 + |payload| && s[14..14 + |payload|] == payload
    ensures PesSection(s, |payload| + 8, 5) == Emit(payload, 14 + |payload|)
  {
  }

  lemma OversizePesFails(payload: seq<byte>, pts: bv64, tail: seq<byte>)
    requires |payload| > MAX_PES_PAYLOAD
    ensures Parse(Pes(payload, pts) + tail).outcome.Broken? && Parse(Pes(payload, pts) + tail).out == []
  {
    PesFields(payload, pts, tail);
    RefusesSection(Pes(payload, pts) + tail);
  }

  lemma RefusesSection(s: seq<byte>)
    requires |s| >= 9 && IsStart(s, 0) && s[3] == 0xBD && Get16(s[4], s[5]) == 0
    ensures Parse(s).outcome.Broken? && Parse(s).out == []
  {
    ParseStep(s);
    assert NextSection(s).Bad?;
  }

  /** A written fragment decodes to exactly its payload if and only if the payload fits a PES packet. */
  lemma FragmentDecodes(payload: seq<byte>, pts: bv64, tail: seq<byte>)
    ensures Parse(Fragment(payload, pts) + tail) == After([payload], Parse(tail)) <==> |payload| <= MAX_PES_PAYLOAD
    ensures |payload| > MAX_PES_PAYLOAD ==> Parse(Fragment(payload, pts) + tail).outcome.Broken?
  {
    assert Fragment(payload, pts) + tail == PackHeader(pts) + (Pes(payload, pts) + tail);
    PackHeaderIsSkipped(pts, Pes(payload, pts) + tail);
    if |payload| <= MAX_PES_PAYLOAD {
      PesIsEmitted(payload, pts, tail);
    } else {
      OversizePesFails(payload, pts, tail);
    }
  }

  lemma SizedSectionIsSkipped(s: seq<byte>, n: nat)
    requires 6 <= n <= |s| && IsStart(s, 0) && s[3] != 0xBA && s[3] != 0xBD
    requires n == 6 + Get16(s[4], s[5])
    ensures Parse(s) == Parse(s[n..])
  {
    ParseStep(s);
    SectionLength(s, n);
  }

  lemma SectionLength(s: seq<byte>, n: nat)
    requires 6 <= n <= |s| && s[3] != 0xBA && s[3] != 0xBD && n == 6 + Get16(s[4], s[5])
    ensures NextSection(s) == Skip(n)
  {
  }

  lemma SystemHeaderIsSkipped(tail: seq<byte>)
    ensures Parse(SYSTEM_HEADER + tail) == Parse(tail)
  {
    var s := SYSTEM_HEADER + tail;
    var nine: byte, zero: byte := 9, 0;
    assert s[4] == zero && s[5] == nine && zero as int == 0 && nine as int == 9;
    assert s[15..] == tail;
    SizedSectionIsSkipped(s, 15);
  }

  lemma StreamMapHead()
    ensures |STREAM_MAP| == 22 && IsStart(STREAM_MAP, 0) && STREAM_MAP[3] == 0xBC
    ensures STREAM_MAP[4] == 0x00 && STREAM_MAP[5] == 0x12
  {
  }

  lemma StreamMapSwallowsTwo(tail: seq<byte>)
    requires |tail| >= 2
    ensures Parse(STREAM_MAP + tail) == Parse(tail[2..])
  {
    StreamMapHead();
    BadSectionSwallows(STREAM_MAP, tail);
  }

  /** A section that announces two bytes more than it has takes them from what follows. */
  lemma BadSectionSwallows(section: seq<byte>, tail: seq<byte>)
    requires |section| == 22 && IsStart(section, 0) && section[3] == 0xBC && section[4] == 0x00 && section[5] == 0x12
    requires |tail| >= 2
    ensures Parse(section + tail) == Parse(tail[2..])
  {
    var s := section + tail;
    var eighteen: byte, zero: byte := 18, 0;
    assert s[4] == zero && s[5] == eighteen && zero as int == 0 && eighteen as int == 18;
    assert s[24..] == tail[2..];
    SizedSectionIsSkipped(s, 24);
  }

  // ---------- What the decoder makes of a static program stream ----------

  /** Every chunk costs at least nine bytes of packet header. */
  lemma {:induction false} ChunksCost(s: seq<byte>)
    ensures |Concat(Parse(s).out)| + 9 * |Parse(s).out| <= |s|
    decreases |s|
  {
    if |s| >= 4 && FindStart(s, 0) >= 0 {
      var buf := s[FindStart(s, 0)..];
      if |buf| >= 4 {
        var section := NextSection(buf);
        assert Parse(s) == ParseAligned(buf) == Proceed(buf, section);
        if section.Skip? {
          ChunksCost(buf[section.total..]);
        } else if section.Emit? {
          var later := Parse(buf[section.total..]);
          ChunksCost(buf[section.total..]);
          assert ([section.payload] + later.out)[1..] == later.out;
          EmitCosts(buf);
        }
      }
    }
  }

  lemma EmitCosts(buf: seq<byte>)
    requires |buf| >= 4
    ensures NextSection(buf).Emit? ==> |NextSection(buf).payload| + 9 <= NextSection(buf).total
  {
  }

  /** What is left of a packet whose first two bytes are gone. */
  lemma ClippedFields(payload: seq<byte>, pts: bv64, tail: seq<byte>, s: seq<byte>)
    requires |payload| <= MAX_PES_PAYLOAD && s == (Pes(payload, pts) + tail)[2..]
    ensures |s| == 12 + |payload| + |tail| && s[12..] == payload + tail
    ensures forall j :: 0 <= j < 12 ==> !IsStart(s, j)
  {
    var n, stamp := PesLength(payload), EncodePts(pts & MASK33);
    ClippedText(Put16(n), stamp, payload, tail, s);
    assert stamp[0] != 0 && stamp[2] != 0 && stamp[4] != 0;
    LengthIsNotZero(n, s[2], s[3]);
  }

  lemma ClippedText(length: seq<byte>, stamp: seq<byte>, payload: seq<byte>, tail: seq<byte>, s: seq<byte>)
    requires |length| == 2 && |stamp| == 5
    requires s == ([0x00, 0x00, 0x01, 0xBD] + length + [0x80, 0x80, 0x05] + stamp + payload + tail)[2..]
    ensures |s| == 12 + |payload| + |tail| && s[12..] == payload + tail
    ensures s[0] == 1 && s[1] == 0xBD && [s[2], s[3]] == length && s[4] == 0x80 && s[5] == 0x80 && s[6] == 0x05
    ensures s[7] == stamp[0] && s[8] == stamp[1] && s[9] == stamp[2] && s[10] == stamp[3] && s[11] == stamp[4]
  {
  }

  lemma LengthIsNotZero(n: u16, hi: byte, lo: byte)
    requires n > 0 && Put16(n) == [hi, lo]
    ensures hi != 0 || lo != 0
  {
    Get16Put16(n);
  }

  /** Bytes without a start code in front are as good as absent. */
  lemma {:induction false} SkipsToStart(x: seq<byte>, k: nat)
    requires k <= |x| && (forall j :: 0 <= j < k ==> !IsStart(x, j))
    ensures Parse(x).out == Parse(x[k..]).out
  {
    var y := x[k..];
    var i := FindStart(x, 0);
    if i >= 0 && i + 4 <= |x| {
      forall j | 0 <= j < i - k
        ensures !IsStart(y, j)
      {
        StartInSuffix(x, k, j);
      }
      StartInSuffix(x, k, i - k);
      FindStartAt(y, 0, i - k);
      assert x[i..] == y[i - k..];
    } else {
      forall j | 0 <= j < |y| && j + 4 <= |y|
        ensures !IsStart(y, j)
      {
        StartInSuffix(x, k, j);
      }
      NothingOut(x);
      NothingOut(y);
    }
  }

  lemma NothingOut(x: seq<byte>)
    requires forall j :: 0 <= j && j + 4 <= |x| ==> !IsStart(x, j)
    ensures Parse(x).out == []
  {
  }

  /** The packets a body is cut into, time stamps 40 ms apart. */
  function Packets(body: seq<byte>, pts: bv64): (s: seq<byte>)
    ensures |s| >= 14 && s[0] == 0 && s[1] == 0
    decreases |body|
  {
    if |body| <= STATIC_PES_PAYLOAD then Pes(body, pts)
    else Pes(body[..STATIC_PES_PAYLOAD], pts) + Packets(body[STATIC_PES_PAYLOAD..], pts + 3600)
  }

  /** The whole stream; the one of the empty body is sent in place of an empty fragment. */
  function ProgramStream(body: seq<byte>, pts: bv64): (s: seq<byte>)
    ensures s != []
  {
    PackHeader(pts) + (SYSTEM_HEADER + (STREAM_MAP + Packets(body, pts)))
  }

  /** The chunks the packets carry. */
  function Cut(body: seq<byte>): seq<seq<byte>>
    decreases |body|
  {
    if |body| <= STATIC_PES_PAYLOAD then [body] else [body[..STATIC_PES_PAYLOAD]] + Cut(body[STATIC_PES_PAYLOAD..])
  }

  method BuildProgramStream(body: seq<byte>, pts: bv64) returns (s: seq<byte>)
    ensures s == ProgramStream(body, pts)
  {
    var packets, offset, stamp := [], 0, pts;
    while offset < |body| || (|body| == 0 && offset == 0)
      invariant 0 <= offset && (offset <= |body| || packets == Packets(body, pts))
      invariant offset < |body| || offset == 0 ==> packets + Packets(body[offset..], stamp) == Packets(body, pts)
      invariant offset >= |body| && offset > 0 ==> packets == Packets(body, pts)
      decreases |body| - offset + STATIC_PES_PAYLOAD
    {
      var end := if offset + STATIC_PES_PAYLOAD > |body| then |body| else offset + STATIC_PES_PAYLOAD;
      NextPacket(packets, body, offset, end, stamp);
      packets := packets + Pes(body[offset..end], stamp);
      if |body| == 0 {
        break;
      }
      stamp := stamp + 3600;
      offset := offset + STATIC_PES_PAYLOAD;
    }
    s := PackHeader(pts) + (SYSTEM_HEADER + (STREAM_MAP + packets));
  }

  lemma NextPacket(packets: seq<byte>, body: seq<byte>, offset: nat, end: nat, stamp: bv64)
    requires offset <= |body| && end == if offset + STATIC_PES_PAYLOAD > |body| then |body| else offset + STATIC_PES_PAYLOAD
    ensures var pes := Pes(body[offset..end], stamp);
            packets + Packets(body[offset..], stamp) ==
            if offset + STATIC_PES_PAYLOAD >= |body| then packets + pes
            else (packets + pes) + Packets(body[offset + STATIC_PES_PAYLOAD..], stamp + 3600)
  {
    var rest := body[offset..];
    if offset + STATIC_PES_PAYLOAD >= |body| {
      assert rest == body[offset..end];
    } else {
      assert rest[..STATIC_PES_PAYLOAD] == body[offset..end];
      assert rest[STATIC_PES_PAYLOAD..] == body[offset + STATIC_PES_PAYLOAD..];
      AppendAssoc(packets, Pes(body[offset..end], stamp), Packets(body[offset + STATIC_PES_PAYLOAD..], stamp + 3600));
    }
  }

  lemma {:induction false} PacketsDecode(body: seq<byte>, pts: bv64)
    ensures Parse(Packets(body, pts)).out == Cut(body)
    decreases |body|
  {
    if |body| <= STATIC_PES_PAYLOAD {
      PesIsEmitted(body, pts, []);
      assert Pes(body, pts) + [] == Pes(body, pts);
    } else {
      PesIsEmitted(body[..STATIC_PES_PAYLOAD], pts, Packets(body[STATIC_PES_PAYLOAD..], pts + 3600));
      PacketsDecode(body[STATIC_PES_PAYLOAD..], pts + 3600);
    }
  }

  lemma {:induction false} CutConcat(body: seq<byte>)
    ensures Concat(Cut(body)) == body
    decreases |body|
  {
    if |body| > STATIC_PES_PAYLOAD {
      CutConcat(body[STATIC_PES_PAYLOAD..]);
    } else {
      assert [body][1..] == [];
    }
  }

  /** Without its first two bytes the first packet is not recognised. */
  lemma StreamIsClipped(body: seq<byte>, pts: bv64)
    ensures Parse(ProgramStream(body, pts)) == Parse(Packets(body, pts)[2..])
  {
    var packets := Packets(body, pts);
    PackHeaderIsSkipped(pts, SYSTEM_HEADER + (STREAM_MAP + packets));
    SystemHeaderIsSkipped(STREAM_MAP + packets);
    StreamMapSwallowsTwo(packets);
  }

  function FirstOf(body: seq<byte>): seq<byte> {
    if |body| <= STATIC_PES_PAYLOAD then body else body[..STATIC_PES_PAYLOAD]
  }

  ghost predicate NoStart(s: seq<byte>) {
    forall j :: 0 <= j < |s| ==> !IsStart(s, j)
  }

  /** What follows the first packet. */
  function Behind(body: seq<byte>, pts: bv64): seq<byte> {
    if |body| <= STATIC_PES_PAYLOAD then [] else Packets(body[STATIC_PES_PAYLOAD..], pts + 3600)
  }

  lemma ClippedPackets(body: seq<byte>, pts: bv64)
    ensures Parse(Packets(body, pts)[2..]).out == Parse(FirstOf(body) + Behind(body, pts)).out
  {
    var first, behind := FirstOf(body), Behind(body, pts);
    assert Packets(body, pts) == Pes(first, pts) + behind;
    var s := Packets(body, pts)[2..];
    ClippedFields(first, pts, behind, s);
    SkipsToStart(s, 12);
  }

  /** If the first packet holds no start code, exactly its payload is lost. */
  lemma FirstPacketIsLost(body: seq<byte>, pts: bv64)
    requires NoStart(FirstOf(body))
    ensures Parse(ProgramStream(body, pts)).out == Cut(body)[1..]
  {
    StreamIsClipped(body, pts);
    ClippedPackets(body, pts);
    BehindDecodes(body, pts);
    StartsBehind(FirstOf(body), Behind(body, pts));
  }

  lemma StartsBehind(first: seq<byte>, behind: seq<byte>)
    requires NoStart(first) && (behind == [] || (|behind| >= 2 && behind[0] == 0 && behind[1] == 0))
    ensures Parse(first + behind).out == Parse(behind).out
  {
    var x := first + behind;
    forall j | 0 <= j < |first|
      ensures !IsStart(x, j)
    {
      NoStartAcross(first, behind, j);
    }
    SkipsToStart(x, |first|);
    assert x[|first|..] == behind;
  }

  lemma BehindDecodes(body: seq<byte>, pts: bv64)
    ensures Parse(Behind(body, pts)).out == Cut(body)[1..]
  {
    if |body| > STATIC_PES_PAYLOAD {
      var later := body[STATIC_PES_PAYLOAD..];
      PacketsDecode(later, pts + 3600);
      assert Cut(body)[1..] == Cut(later);
    }
  }

  lemma NoStartAcross(first: seq<byte>, behind: seq<byte>, j: nat)
    requires NoStart(first) && j < |first| && (behind == [] || (|behind| >= 2 && behind[0] == 0 && behind[1] == 0))
    ensures !IsStart(first + behind, j)
  {
    var x := first + behind;
    assert j + 3 <= |first| ==> IsStart(x, j) == IsStart(first, j);
  }

  /** The stream sent for an empty fragment decodes to nothing. */
  lemma StaticStreamEmitsNothing(pts: bv64)
    ensures Parse(ProgramStream([], pts)).out == []
  {
    FirstPacketIsLost([], pts);
  }

  /**
   A static stream gives its body back only if the body is empty, whenever the body fits one packet
   or its first packet holds no start code.
   */
  lemma StaticStreamReturnsOnlyNothing(body: seq<byte>, pts: bv64)
    requires |body| <= STATIC_PES_PAYLOAD || NoStart(FirstOf(body))
    ensures Concat(Parse(ProgramStream(body, pts)).out) == body <==> body == []
  {
    var out := Parse(ProgramStream(body, pts)).out;
    if NoStart(FirstOf(body)) {
      FirstPacketIsLost(body, pts);
      CutConcat(body);
      assert Cut(body) == [Cut(body)[0]] + Cut(body)[1..];
    } else {
      StreamIsClipped(body, pts);
      ClippedPackets(body, pts);
      assert FirstOf(body) + Behind(body, pts) == body;
      ChunksCost(body);
    }
  }

  /** What is still to come once a section has been dealt with. */
  lemma Advances(out: seq<seq<byte>>, buf: seq<byte>, section: Section)
    requires section.Skip? || section.Emit? ==> 0 < section.total <= |buf|
    requires Parse(buf) == Proceed(buf, section)
    ensures After(out, Parse(buf)) ==
            if section.Wait? then Parsed(out, buf, Fine)
            else if section.Bad? then Parsed(out, buf, Broken(section.reason))
            else if section.Skip? then After(out, Parse(buf[section.total..]))
            else After(out + [section.payload], Parse(buf[section.total..]))
  {
    if section.Emit? {
      var rest := Parse(buf[section.total..]);
      assert out + ([section.payload] + rest.out) == out + [section.payload] + rest.out;
    }
  }

  // ---------- Reading: the decoder itself ----------

  /** The receiver's decoder: `buf` holds what earlier writes could not yet use. */
  class ProgramStreamDecoder {
    var buf: seq<byte>

    constructor ()
      ensures buf == []
    {
      buf := [];
    }

    method Write(data: seq<byte>) returns (out: seq<seq<byte>>, outcome: Outcome)
      modifies this
      ensures data == [] ==> buf == old(buf) && out == [] && outcome == Fine
      ensures data != [] ==> Parsed(out, buf, outcome) == Parse(old(buf) + data)
    {
      out, outcome := [], Fine;
      if data == [] {
        return;
      }
      buf := buf + data;
      ghost var whole := Parse(buf);
      while true
        invariant outcome == Fine
        invariant whole == After(out, Parse(buf))
        decreases |buf|
      {
        if |buf| < 4 {
          return;
        }
        var idx := FindStart(buf, 0);
        if idx < 0 {
          buf := buf[|buf| - 3..];
          return;
        }
        if idx > 0 {
          ParseFromStart(buf);
          buf := buf[idx..];
          if |buf| < 4 {
            return;
          }
        }
        ParseStep(buf);
        var section := NextSection(buf);
        Advances(out, buf, section);
        match section
        case Wait =>
          return;
        case Bad(reason) =>
          outcome := Broken(reason);
          return;
        case Skip(total) =>
          buf := buf[total..];
        case Emit(payload, total) =>
          out := out + [payload];
          buf := buf[total..];
      }
    }
  }
}
