/**
 The cleanup schedule: a cron expression restricted to minutes and hours, and the search for the
 next minute that it matches. Times count nanoseconds from midnight UTC, 1 January of year 1.
 */
module CleanupSchedule {
  import Text

  const MINUTE := 60_000_000_000
  const DAY := 24 * 60
  const HORIZON := 366 * DAY
  const DEFAULT_SCHEDULE := "*/30 * * * *"
  const EVERY := "@every "
  const MAX_INT := 0x7fff_ffff_ffff_ffff

  datatype Number = NaN | Num(n: int)

  // ---------- Numbers ----------

  predicate IsDigit(c: char) {
    '0' <= c <= '9'
  }

  function Digits(s: string): Number {
    if s == "" then Num(0)
    else if !IsDigit(s[|s| - 1]) then NaN
    else
      var high := Digits(s[..|s| - 1]);
      if high.NaN? then NaN else Num(10 * high.n + (s[|s| - 1] as int - '0' as int))
  }

  /** A decimal number with an optional sign, within 64 bits. */
  function Atoi(s: string): Number {
    var signed := s != "" && (s[0] == '-' || s[0] == '+');
    var body := if signed then s[1..] else s;
    var d := if body == "" then NaN else Digits(body);
    if d.NaN? then NaN
    else
      var n := if signed && s[0] == '-' then -d.n else d.n;
      if -MAX_INT - 1 <= n <= MAX_INT then Num(n) else NaN
  }

  // ---------- Fields ----------

  /** `x % step` of operands that are not negative. */
  predicate Divides(step: int, x: int)
    requires step > 0
  {
    x % step == 0
  }

  predicate BoundsHold(base: string, value: int) {
    var i := Text.IndexOf(base, '-');
    i < |base| &&
    var from, to := Atoi(Text.Trim(base[..i])), Atoi(Text.Trim(base[i + 1..]));
    from.Num? && to.Num? && from.n <= value <= to.n
  }

  predicate StepMatches(base: string, step: int, value: int, min: int)
    requires step > 0
  {
    if base == "*" then Divides(step, value - min)
    else if '-' in base then BoundsHold(base, value) && Divides(step, value - Atoi(Text.Trim(base[..Text.IndexOf(base, '-')])).n)
    else Atoi(base).Num? && Atoi(base).n <= value && Divides(step, value - Atoi(base).n)
  }

  predicate SegmentMatches(segment: string, value: int, min: int, max: int) {
    if segment == "" then false
    else if segment == "*" then true
    else if '/' in segment then
      var i := Text.IndexOf(segment, '/');
      i < |segment| &&
      var step := Atoi(Text.Trim(segment[i + 1..]));
      step.Num? && step.n > 0 && StepMatches(Text.Trim(segment[..i]), step.n, value, min)
    else if '-' in segment then BoundsHold(segment, value)
    else Atoi(segment).Num? && min <= Atoi(segment).n <= max && Atoi(segment).n == value
  }

  predicate AnyMatches(segments: seq<string>, value: int, min: int, max: int) {
    segments != [] && (SegmentMatches(Text.Trim(segments[0]), value, min, max) || AnyMatches(segments[1..], value, min, max))
  }

  predicate FieldMatches(field: string, value: int, min: int, max: int) {
    AnyMatches(Text.Split(Text.Trim(field), ','), value, min, max)
  }

  // ---------- The search ----------

  /** The minute with this number, counted from the origin, matches both fields. */
  predicate Due(minutes: string, hours: string, m: int) {
    FieldMatches(minutes, m % 60, 0, 59) && FieldMatches(hours, m / 60 % 24, 0, 23)
  }

  datatype Answer = Delay(ns: int) | BadInterval | TooShort | BadFields | Unsupported | NoTime

  /** The earliest matching minute strictly after `now`. */
  ghost predicate Earliest(minutes: string, hours: string, now: nat, m: int) {
    && m * 60_000_000_000 > now && Due(minutes, hours, m)
    && forall k :: k * 60_000_000_000 > now && Due(minutes, hours, k) ==> m <= k
  }

  ghost predicate NeverDue(minutes: string, hours: string) {
    forall h, m :: 0 <= h < 24 && 0 <= m < 60 ==> !FieldMatches(minutes, m, 0, 59) || !FieldMatches(hours, h, 0, 23)
  }

  /**
   The search over a year finds the earliest matching minute, which is at most a day away, or
   reports that there is none exactly when no minute of the day matches.
   */
  method Search(minutes: string, hours: string, now: nat) returns (r: Answer)
    ensures r.Delay? || r.NoTime?
    ensures r.Delay? ==> exists m :: Earliest(minutes, hours, now, m) && r.ns == m * 60_000_000_000 - now
    ensures r.Delay? ==> 0 < r.ns <= 1440 * 60_000_000_000
    ensures r.NoTime? <==> NeverDue(minutes, hours)
  {
    var start := now / MINUTE + 1;
    AfterNow(now, start);
    var i := 0;
    while i < HORIZON
      invariant 0 <= i <= HORIZON
      invariant forall k :: start <= k < start + i ==> !Due(minutes, hours, k)
    {
      var candidate := start + i;
      if Due(minutes, hours, candidate) {
        DueInADay(minutes, hours, start, candidate);
        NotNever(minutes, hours, candidate);
        r := Delay(candidate * MINUTE - now);
        assert Earliest(minutes, hours, now, candidate);
        return;
      }
      i := i + 1;
    }
    NoneInADay(minutes, hours, start);
    return NoTime;
  }

  lemma AfterNow(now: nat, start: int)
    requires start == now / MINUTE + 1
    ensures forall k :: k * MINUTE > now <==> k >= start
    ensures start * MINUTE - now <= MINUTE
  {
    assert now == (start - 1) * MINUTE + now % MINUTE;
  }

  lemma SameTimeOfDay(m: int)
    ensures (m - DAY) % 60 == m % 60 && (m - DAY) / 60 % 24 == m / 60 % 24
  {
    assert m - DAY == (m / 60 - 24) * 60 + m % 60;
    assert (m - DAY) / 60 == m / 60 - 24;
  }

  /** The first match is less than a day from the start of the search: a day earlier is the same time of day. */
  lemma DueInADay(minutes: string, hours: string, start: int, m: int)
    requires m >= start && Due(minutes, hours, m) && forall k :: start <= k < m ==> !Due(minutes, hours, k)
    ensures m < start + DAY
  {
    SameTimeOfDay(m);
    assert Due(minutes, hours, m - DAY);
  }

  lemma NotNever(minutes: string, hours: string, m: int)
    requires Due(minutes, hours, m)
    ensures !NeverDue(minutes, hours)
  {
    var h, mm := m / 60 % 24, m % 60;
    assert FieldMatches(minutes, mm, 0, 59) && FieldMatches(hours, h, 0, 23);
  }

  /** Any day has every minute of the day in it. */
  lemma MinuteOfDay(start: int, h: int, m: int) returns (k: int)
    requires 0 <= h < 24 && 0 <= m < 60
    ensures start <= k < start + DAY && k % 60 == m && k / 60 % 24 == h
  {
    var at := h * 60 + m;
    k := start + (at - start) % DAY;
    var q := (at - start) / DAY;
    assert k == at - q * DAY == (h - 24 * q) * 60 + m;
    assert k / 60 == h - 24 * q;
  }

  lemma NoneInADay(minutes: string, hours: string, start: int)
    requires forall k :: start <= k < start + HORIZON ==> !Due(minutes, hours, k)
    ensures NeverDue(minutes, hours)
  {
    forall h, m | 0 <= h < 24 && 0 <= m < 60
      ensures !FieldMatches(minutes, m, 0, 59) || !FieldMatches(hours, h, 0, 23)
    {
      var k := MinuteOfDay(start, h, m);
      assert !Due(minutes, hours, k);
    }
  }

  // ---------- The whole expression ----------

  function Schedule(expr: string): string {
    if Text.Trim(expr) == "" then DEFAULT_SCHEDULE else Text.Trim(expr)
  }

  predicate IsEvery(schedule: string) {
    |EVERY| <= |schedule| && schedule[..|EVERY|] == EVERY
  }

  /** A schedule of two fields and three stars has these fields. */
  lemma ScheduleFields(minutes: string, hours: string)
    requires Text.Solid(minutes) && Text.Solid(hours)
    ensures Text.Fields(minutes + " " + hours + " * * *") == [minutes, hours, "*", "*", "*"]
  {
    var words, gaps := [minutes, hours, "*", "*", "*"], ["", " ", " ", " ", " "];
    assert words[1..] == [hours, "*", "*", "*"] && gaps[1..] == [" ", " ", " ", " "];
    assert words[1..][1..] == ["*", "*", "*"] && gaps[1..][1..] == [" ", " ", " "];
    assert Text.Spaced(["*", "*", "*"], [" ", " ", " "]) == " * * *" by {
      assert ["*", "*", "*"][1..] == ["*", "*"] && [" ", " ", " "][1..] == [" ", " "];
      assert ["*", "*"][1..] == ["*"] && [" ", " "][1..] == [" "];
      assert ["*"][1..] == [] && [" "][1..] == [];
    }
    assert Text.Spaced(words, gaps) + "" == minutes + " " + hours + " * * *";
    Text.FieldsOf(words, gaps, "");
  }

  /** The delay until the next cleanup; `parse` reads a duration in nanoseconds. */
  method NextDelay(expr: string, now: nat, parse: string -> Number) returns (r: Answer)
    ensures var schedule := if Text.Trim(expr) == "" then "*/30 * * * *" else Text.Trim(expr);
            if "@every " <= schedule then
              var interval := parse(Text.Trim(schedule[7..]));
              r == if interval.NaN? then BadInterval else if interval.n < 60_000_000_000 then TooShort else Delay(interval.n)
            else
              var fields := Text.Fields(schedule);
              if |fields| != 5 then r.BadFields?
              else if fields[2] != "*" || fields[3] != "*" || fields[4] != "*" then r.Unsupported?
              else if NeverDue(fields[0], fields[1]) then r.NoTime?
              else
                && r.Delay? && 0 < r.ns <= 1440 * 60_000_000_000
                && exists m :: Earliest(fields[0], fields[1], now, m) && r.ns == m * 60_000_000_000 - now
  {
    var schedule := Schedule(expr);
    if IsEvery(schedule) {
      var interval := parse(Text.Trim(schedule[|EVERY|..]));
      if interval.NaN? {
        return BadInterval;
      }
      if interval.n < MINUTE {
        return TooShort;
      }
      return Delay(interval.n);
    }
    var fields := Text.Fields(schedule);
    if |fields| != 5 {
      return BadFields;
    }
    if fields[2] != "*" || fields[3] != "*" || fields[4] != "*" {
      return Unsupported;
    }
    r := Search(fields[0], fields[1], now);
  }

  // ---------- What a field means ----------

  datatype Segment =
    | Any
    | Every(step: nat)
    | Exactly(n: nat)
    | Range(from: nat, to: nat)
    | RangeEvery(from: nat, to: nat, step: nat)
    | FromEvery(from: nat, step: nat)

  predicate Means(seg: Segment, value: int, min: int, max: int) {
    match seg
    case Any => true
    case Every(step) => step > 0 && (value - min) % step == 0
    case Exactly(n) => n == value && min <= n <= max
    case Range(from, to) => from <= value <= to
    case RangeEvery(from, to, step) => step > 0 && from <= value <= to && (value - from) % step == 0
    case FromEvery(from, step) => step > 0 && from <= value && (value - from) % step == 0
  }

  function Show(n: nat): (s: string)
    ensures s != ""
  {
    var digit := ['0' + (n % 10) as char];
    if n < 10 then digit else Show(n / 10) + digit
  }

  function Written(seg: Segment): string {
    match seg
    case Any => "*"
    case Every(step) => "*" + ['/'] + Show(step)
    case Exactly(n) => Show(n)
    case Range(from, to) => Show(from) + ['-'] + Show(to)
    case RangeEvery(from, to, step) => (Show(from) + ['-'] + Show(to)) + ['/'] + Show(step)
    case FromEvery(from, step) => Show(from) + ['/'] + Show(step)
  }

  predicate Small(n: nat) {
    n <= MAX_INT
  }

  predicate SmallNumbers(seg: Segment) {
    match seg
    case Any => true
    case Every(step) => Small(step)
    case Exactly(n) => Small(n)
    case Range(from, to) => Small(from) && Small(to)
    case RangeEvery(from, to, step) => Small(from) && Small(to) && Small(step)
    case FromEvery(from, step) => Small(from) && Small(step)
  }

  predicate Plain(s: string) {
    forall i :: 0 <= i < |s| ==> IsDigit(s[i])
  }

  lemma {:induction false} ShowReads(n: nat)
    ensures Plain(Show(n)) && Digits(Show(n)) == Num(n)
  {
    if n >= 10 {
      ShowReads(n / 10);
      assert Show(n)[..|Show(n)| - 1] == Show(n / 10);
    } else {
      assert Show(n)[..0] == "";
    }
  }

  lemma {:induction false} DigitsOnly(s: string)
    ensures Digits(s).Num? <==> Plain(s)
    ensures Digits(s).Num? ==> Digits(s).n >= 0
  {
    if s != "" {
      DigitsOnly(s[..|s| - 1]);
      assert Plain(s) <==> Plain(s[..|s| - 1]) && IsDigit(s[|s| - 1]);
    }
  }

  /** A number is read with either sign or none, exactly within 64 bits. */
  lemma AtoiReads(n: nat)
    ensures Atoi(Show(n)) == (if n < 0x8000_0000_0000_0000 then Num(n) else NaN) && Atoi(['+'] + Show(n)) == Atoi(Show(n))
    ensures Atoi(['-'] + Show(n)) == if n <= 0x8000_0000_0000_0000 then Num(0 - n) else NaN
  {
    ShowReads(n);
    assert (['+'] + Show(n))[1..] == Show(n) && (['-'] + Show(n))[1..] == Show(n);
    assert IsDigit(Show(n)[0]);
  }

  /** Nothing else is a number. */
  lemma AtoiOnly(s: string)
    requires Atoi(s).Num?
    ensures s != "" && var body := if s[0] == '-' || s[0] == '+' then s[1..] else s; body != "" && forall i :: 0 <= i < |body| ==> '0' <= body[i] <= '9'
  {
    DigitsOnly(if s[0] == '-' || s[0] == '+' then s[1..] else s);
  }

  lemma PlainFacts(s: string)
    requires Plain(s)
    ensures '-' !in s && '/' !in s && ',' !in s && '*' !in s && Text.Trim(s) == s
  {
    Text.TightStays(s);
  }

  lemma ShowIsNumber(n: nat)
    requires Small(n)
    ensures Atoi(Show(n)) == Num(n) && Plain(Show(n)) && Text.Trim(Show(n)) == Show(n)
    ensures '-' !in Show(n) && '/' !in Show(n) && ',' !in Show(n) && '*' !in Show(n)
  {
    ShowReads(n);
    PlainFacts(Show(n));
  }

  lemma RangeText(from: nat, to: nat, s: string)
    requires Small(from) && Small(to) && s == Show(from) + ['-'] + Show(to)
    ensures '-' in s && '/' !in s && ',' !in s && Text.Trim(s) == s && s != "*" && s != ""
    ensures Text.IndexOf(s, '-') == |Show(from)| && s[..|Show(from)|] == Show(from) && s[|Show(from)| + 1..] == Show(to)
  {
    ShowIsNumber(from);
    ShowIsNumber(to);
    Text.IndexIs(Show(from), '-', Show(to));
    assert s[|Show(from)|] == '-';
    Text.TightStays(s);
  }

  lemma RangeReads(from: nat, to: nat, s: string, value: int)
    requires Small(from) && Small(to) && s == Show(from) + ['-'] + Show(to)
    ensures BoundsHold(s, value) <==> from <= value <= to
  {
    RangeText(from, to, s);
    ShowIsNumber(from);
    ShowIsNumber(to);
  }

  lemma StepReads(base: string, step: nat, value: int, min: int, max: int)
    requires Small(step) && '/' !in base && base != "" && Text.Trim(base) == base
    ensures var s := base + ['/'] + Show(step);
            SegmentMatches(s, value, min, max) <==> step > 0 && StepMatches(base, step, value, min)
  {
    var s := base + ['/'] + Show(step);
    ShowIsNumber(step);
    Text.IndexIs(base, '/', Show(step));
    assert s[..|base|] == base && s[|base| + 1..] == Show(step) && s[|base|] == '/';
  }

  lemma RangeIsMeant(from: nat, to: nat, value: int, min: int, max: int)
    requires Small(from) && Small(to)
    ensures SegmentMatches(Show(from) + ['-'] + Show(to), value, min, max) <==> from <= value <= to
  {
    var s := Show(from) + ['-'] + Show(to);
    RangeText(from, to, s);
    RangeReads(from, to, s, value);
  }

  lemma RangeSteps(from: nat, to: nat, base: string, step: nat, value: int, min: int)
    requires Small(from) && Small(to) && base == Show(from) + ['-'] + Show(to) && step > 0
    ensures StepMatches(base, step, value, min) <==> from <= value <= to && Divides(step, value - from)
  {
    RangeText(from, to, base);
    RangeReads(from, to, base, value);
    ShowIsNumber(from);
  }

  lemma RangeEveryIsMeant(from: nat, to: nat, step: nat, base: string, value: int, min: int, max: int)
    requires Small(from) && Small(to) && Small(step) && base == Show(from) + ['-'] + Show(to)
    ensures SegmentMatches(base + ['/'] + Show(step), value, min, max)
       <==> step > 0 && from <= value <= to && Divides(step, value - from)
  {
    RangeText(from, to, base);
    if step > 0 {
      RangeSteps(from, to, base, step, value, min);
    }
    StepReads(base, step, value, min, max);
  }

  lemma FromEveryIsMeant(from: nat, step: nat, value: int, min: int, max: int)
    requires Small(from) && Small(step)
    ensures SegmentMatches(Show(from) + ['/'] + Show(step), value, min, max)
       <==> step > 0 && from <= value && Divides(step, value - from)
  {
    ShowIsNumber(from);
    if step > 0 {
      FromSteps(from, step, value, min);
    }
    StepReads(Show(from), step, value, min, max);
  }

  lemma FromSteps(from: nat, step: nat, value: int, min: int)
    requires Small(from) && step > 0
    ensures StepMatches(Show(from), step, value, min) <==> from <= value && Divides(step, value - from)
  {
    ShowIsNumber(from);
  }

  lemma ExactlyIsMeant(n: nat, value: int, min: int, max: int)
    requires Small(n)
    ensures SegmentMatches(Show(n), value, min, max) <==> n == value && min <= n <= max
  {
    ShowIsNumber(n);
  }

  /** An empty segment, as between two commas, matches nothing. */
  lemma EmptyMatchesNothing(value: int, min: int, max: int)
    ensures !SegmentMatches("", value, min, max)
  {
  }

  /** A segment as it is written matches exactly the values that it means. */
  lemma SegmentIsMeant(seg: Segment, value: int, min: int, max: int)
    requires SmallNumbers(seg)
    ensures SegmentMatches(Written(seg), value, min, max) <==> Means(seg, value, min, max)
  {
    match seg
    case Any =>
    case Every(step) => StepReads("*", step, value, min, max);
    case Exactly(n) => ExactlyIsMeant(n, value, min, max);
    case Range(from, to) => RangeIsMeant(from, to, value, min, max);
    case RangeEvery(from, to, step) => RangeEveryIsMeant(from, to, step, Show(from) + ['-'] + Show(to), value, min, max);
    case FromEvery(from, step) => FromEveryIsMeant(from, step, value, min, max);
  }

  lemma WrittenIsClean(seg: Segment)
    requires SmallNumbers(seg)
    ensures Text.Tight(Written(seg)) && ',' !in Written(seg) && Written(seg) != ""
  {
    match seg
    case Any =>
    case Every(step) => ShowIsNumber(step);
    case Exactly(n) => ShowIsNumber(n);
    case Range(from, to) =>
      ShowIsNumber(from);
      ShowIsNumber(to);
    case RangeEvery(from, to, step) =>
      ShowIsNumber(from);
      ShowIsNumber(to);
      ShowIsNumber(step);
    case FromEvery(from, step) =>
      ShowIsNumber(from);
      ShowIsNumber(step);
  }

  function AllWritten(segs: seq<Segment>): (r: seq<string>)
    ensures |r| == |segs| && forall i :: 0 <= i < |segs| ==> r[i] == Written(segs[i])
  {
    if segs == [] then [] else [Written(segs[0])] + AllWritten(segs[1..])
  }

  predicate AnyMeans(segs: seq<Segment>, value: int, min: int, max: int) {
    segs != [] && (Means(segs[0], value, min, max) || AnyMeans(segs[1..], value, min, max))
  }

  lemma {:induction false} AnyIsMeant(segs: seq<Segment>, parts: seq<string>, value: int, min: int, max: int)
    requires (forall i :: 0 <= i < |segs| ==> SmallNumbers(segs[i])) && Text.TrimAll(parts) == AllWritten(segs)
    ensures AnyMatches(parts, value, min, max) <==> AnyMeans(segs, value, min, max)
    decreases |segs|
  {
    if segs != [] {
      SegmentIsMeant(segs[0], value, min, max);
      assert parts == [parts[0]] + parts[1..];
      Text.TrimAllFirst(parts[0], parts[1..]);
      assert Text.TrimAll(parts)[0] == Written(segs[0]);
      assert Text.TrimAll(parts[1..]) == Text.TrimAll(parts)[1..] == AllWritten(segs[1..]);
      AnyIsMeant(segs[1..], parts[1..], value, min, max);
    }
  }

  /** A field as it is written matches exactly the values that one of its segments means. */
  lemma FieldIsMeant(segs: seq<Segment>, value: int, min: int, max: int)
    requires segs != [] && forall i :: 0 <= i < |segs| ==> SmallNumbers(segs[i])
    ensures FieldMatches(Text.Join(AllWritten(segs), ","), value, min, max)
       <==> AnyMeans(segs, value, min, max)
  {
    var parts := AllWritten(segs);
    forall part | part in parts
      ensures Text.Tight(part) && ',' !in part && part != ""
    {
      var i :| 0 <= i < |segs| && parts[i] == part;
      WrittenIsClean(segs[i]);
    }
    var field := Text.Join(parts, ",");
    Text.SplitJoin("", parts, ',', "");
    assert "," + "" == ",";
    assert "" + field == field;
    JoinIsTight(parts);
    Text.TightStays(field);
    AnyIsMeant(segs, Text.Split(field, ','), value, min, max);
  }

  lemma {:induction false} JoinIsTight(parts: seq<string>)
    requires parts != [] && forall part :: part in parts ==> Text.Tight(part) && part != ""
    ensures Text.Tight(Text.Join(parts, ",")) && Text.Join(parts, ",") != ""
  {
    assert parts[0] in parts;
    if |parts| > 1 {
      assert forall part :: part in parts[1..] ==> part in parts;
      JoinIsTight(parts[1..]);
    }
  }
}
