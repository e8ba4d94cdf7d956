/** Header text: one character per byte; space and letter case are those of ASCII. */
module Text {

  predicate IsSpace(c: char) {
    c == ' ' || '\t' <= c <= '\r'
  }

  /** The spaces of ASCII: tab, line feed, vertical tab, form feed, carriage return and the space itself. */
  lemma SpacesAre(c: char)
    ensures IsSpace(c) <==> c as int in {9, 10, 11, 12, 13, 32}
  {
  }

  function TrimLeft(s: string): string {
    if s != "" && IsSpace(s[0]) then TrimLeft(s[1..]) else s
  }

  function TrimRight(s: string): string {
    if s != "" && IsSpace(s[|s| - 1]) then TrimRight(s[..|s| - 1]) else s
  }

  function Trim(s: string): string {
    TrimRight(TrimLeft(s))
  }

  function LowerChar(c: char): char {
    if 'A' <= c <= 'Z' then c + 32 as char else c
  }

  function Lower(s: string): string {
    seq(|s|, i requires 0 <= i < |s| => LowerChar(s[i]))
  }

  // ---------- Trimming ----------

  /** Neither end is a space. */
  predicate Tight(s: string) {
    s == "" || (!IsSpace(s[0]) && !IsSpace(s[|s| - 1]))
  }

  lemma {:induction false} TrimLeftEnds(s: string)
    ensures TrimLeft(s) == "" || !IsSpace(TrimLeft(s)[0])
  {
    if s != "" && IsSpace(s[0]) {
      TrimLeftEnds(s[1..]);
    }
  }

  lemma {:induction false} TrimRightEnds(s: string)
    ensures TrimRight(s) == "" || (!IsSpace(TrimRight(s)[|TrimRight(s)| - 1]) && TrimRight(s)[0] == s[0])
  {
    if s != "" && IsSpace(s[|s| - 1]) {
      TrimRightEnds(s[..|s| - 1]);
    }
  }

  lemma TrimIsTight(s: string)
    ensures Tight(Trim(s))
  {
    TrimLeftEnds(s);
    TrimRightEnds(TrimLeft(s));
  }

  lemma {:induction false} TrimLeftMembers(s: string)
    ensures forall c :: c in TrimLeft(s) ==> c in s
  {
    if s != "" && IsSpace(s[0]) {
      TrimLeftMembers(s[1..]);
    }
  }

  lemma {:induction false} TrimRightMembers(s: string)
    ensures forall c :: c in TrimRight(s) ==> c in s
  {
    if s != "" && IsSpace(s[|s| - 1]) {
      TrimRightMembers(s[..|s| - 1]);
    }
  }

  lemma TrimMembers(s: string)
    ensures forall c :: c in Trim(s) ==> c in s
  {
    TrimLeftMembers(s);
    TrimRightMembers(TrimLeft(s));
  }

  lemma TightStays(s: string)
    requires Tight(s)
    ensures Trim(s) == s
  {
  }

  lemma TrimTwice(s: string)
    ensures Trim(Trim(s)) == Trim(s)
  {
    TrimIsTight(s);
    TightStays(Trim(s));
  }

  lemma {:induction false} TrimLeftIs(s: string)
    ensures exists pad :: Blank(pad) && s == pad + TrimLeft(s)
  {
    if s != "" && IsSpace(s[0]) {
      TrimLeftIs(s[1..]);
      var pad :| Blank(pad) && s[1..] == pad + TrimLeft(s[1..]);
      assert Blank([s[0]] + pad) && s == ([s[0]] + pad) + TrimLeft(s);
    } else {
      assert Blank("") && s == "" + TrimLeft(s);
    }
  }

  lemma {:induction false} TrimRightIs(s: string)
    ensures exists pad :: Blank(pad) && s == TrimRight(s) + pad
  {
    if s != "" && IsSpace(s[|s| - 1]) {
      var less, last := s[..|s| - 1], s[|s| - 1];
      TrimRightIs(less);
      var pad :| Blank(pad) && less == TrimRight(less) + pad;
      assert Blank(pad + [last]) && s == TrimRight(s) + (pad + [last]);
    } else {
      assert Blank("") && s == TrimRight(s) + "";
    }
  }

  /** Trimming takes away spaces at both ends and nothing else. */
  lemma TrimIs(s: string) returns (before: string, behind: string)
    ensures Blank(before) && Blank(behind) && s == before + Trim(s) + behind && Tight(Trim(s))
  {
    TrimLeftIs(s);
    TrimRightIs(TrimLeft(s));
    TrimIsTight(s);
    before :| Blank(before) && s == before + TrimLeft(s);
    behind :| Blank(behind) && TrimLeft(s) == Trim(s) + behind;
  }

  // ---------- Letter case ----------

  /** The same character, or the same letter in the other case. */
  predicate SameLetter(a: char, b: char) {
    a == b || ('A' <= a <= 'Z' && b as int == a as int + 32) || ('A' <= b <= 'Z' && a as int == b as int + 32)
  }

  predicate SameText(a: string, b: string) {
    |a| == |b| && forall i :: 0 <= i < |a| ==> SameLetter(a[i], b[i])
  }

  /** Texts have one lower case form exactly if they differ in letter case only, and no capital is left in it. */
  lemma LowerIs(a: string, b: string)
    ensures Lower(a) == Lower(b) <==> SameText(a, b)
    ensures SameText(a, Lower(a)) && forall i :: 0 <= i < |a| ==> !('A' <= Lower(a)[i] <= 'Z')
  {
    forall i | 0 <= i < |a| && |a| == |b|
      ensures Lower(a)[i] == Lower(b)[i] <==> SameLetter(a[i], b[i])
    {
    }
    if Lower(a) == Lower(b) {
      assert |a| == |Lower(a)| == |b|;
    }
  }

  // ---------- Splitting and joining ----------

  /** The position of the first `c`, or the length of `s` when there is none. */
  function IndexOf(s: string, c: char): (i: nat)
    ensures i <= |s| && c !in s[..i] && (i < |s| ==> s[i] == c)
  {
    if s == "" || s[0] == c then 0
    else
      var i := IndexOf(s[1..], c);
      assert s[..i + 1] == [s[0]] + s[1..][..i];
      i + 1
  }

  function Split(s: string, c: char): (r: seq<string>)
    ensures r != []
    decreases |s|
  {
    var i := IndexOf(s, c);
    if i == |s| then [s] else [s[..i]] + Split(s[i + 1..], c)
  }

  function Join(parts: seq<string>, sep: string): string {
    if parts == [] then "" else if |parts| == 1 then parts[0] else parts[0] + sep + Join(parts[1..], sep)
  }

  function TrimAll(parts: seq<string>): (r: seq<string>)
    ensures |r| == |parts|
  {
    seq(|parts|, i requires 0 <= i < |parts| => Trim(parts[i]))
  }

  /** The length of the leading run of characters that are not spaces. */
  function WordLength(s: string): (n: nat)
    ensures n <= |s| && (s != "" && !IsSpace(s[0]) ==> n > 0)
  {
    if s == "" || IsSpace(s[0]) then 0 else 1 + WordLength(s[1..])
  }

  lemma {:induction false} TrimLeftShortens(s: string)
    ensures |TrimLeft(s)| <= |s| && (TrimLeft(s) != "" ==> !IsSpace(TrimLeft(s)[0]))
  {
    if s != "" && IsSpace(s[0]) {
      TrimLeftShortens(s[1..]);
    }
  }

  /** The words of a text. */
  function Fields(s: string): seq<string>
    decreases |s|
  {
    TrimLeftShortens(s);
    var t := TrimLeft(s);
    if t == "" then [] else [t[..WordLength(t)]] + Fields(t[WordLength(t)..])
  }

  /** A word: not empty and without spaces. */
  predicate Solid(word: string) {
    word != "" && forall i :: 0 <= i < |word| ==> !IsSpace(word[i])
  }

  lemma {:induction false} WordEnds(word: string, rest: string)
    requires (forall i :: 0 <= i < |word| ==> !IsSpace(word[i])) && (rest != "" ==> IsSpace(rest[0]))
    ensures WordLength(word + rest) == |word|
  {
    if word != "" {
      WordEnds(word[1..], rest);
      assert (word + rest)[1..] == word[1..] + rest;
    } else {
      assert word + rest == rest;
    }
  }

  lemma {:induction false} BlankGoes(pad: string, rest: string)
    requires Blank(pad)
    ensures TrimLeft(pad + rest) == TrimLeft(rest)
  {
    if pad == "" {
      assert pad + rest == rest;
    } else {
      BlankGoes(pad[1..], rest);
      assert (pad + rest)[1..] == pad[1..] + rest;
    }
  }

  /** Words with spaces before each of them. */
  function Spaced(words: seq<string>, gaps: seq<string>): string
    requires |gaps| == |words|
  {
    if words == [] then "" else gaps[0] + words[0] + Spaced(words[1..], gaps[1..])
  }

  /** Whatever spaces stand between words, before and behind them, the fields are the words. */
  lemma {:induction false} FieldsOf(words: seq<string>, gaps: seq<string>, tail: string)
    requires |gaps| == |words| && Blank(tail) && forall i :: 0 <= i < |words| ==> Solid(words[i]) && Blank(gaps[i]) && (i > 0 ==> gaps[i] != "")
    ensures Fields(Spaced(words, gaps) + tail) == words
    decreases |words|
  {
    if words == [] {
      BlankGoes(tail, "");
      assert tail + "" == tail && Spaced(words, gaps) + tail == tail;
    } else {
      var word, rest := words[0], Spaced(words[1..], gaps[1..]) + tail;
      assert Spaced(words, gaps) + tail == gaps[0] + (word + rest);
      BlankGoes(gaps[0], word + rest);
      assert |words| > 1 ==> rest[0] == gaps[1][0];
      WordEnds(word, rest);
      assert (word + rest)[..|word|] == word && (word + rest)[|word|..] == rest;
      FieldsOf(words[1..], gaps[1..], tail);
    }
  }

  predicate Contains(s: string, part: string) {
    |part| <= |s| && (s[..|part|] == part || (s != "" && Contains(s[1..], part)))
  }

  predicate OccursAt(s: string, part: string, i: nat) {
    i + |part| <= |s| && s[i..i + |part|] == part
  }

  /** The part stands somewhere in the text. */
  lemma {:induction false} ContainsIs(s: string, part: string)
    ensures Contains(s, part) <==> exists i: nat :: OccursAt(s, part, i)
    decreases |s|
  {
    if |part| <= |s| {
      assert OccursAt(s, part, 0) <==> s[..|part|] == part;
      if s != "" {
        ContainsIs(s[1..], part);
        forall i: nat
          ensures OccursAt(s[1..], part, i) <==> OccursAt(s, part, i + 1)
        {
          assert i + 1 + |part| <= |s| ==> s[1..][i..i + |part|] == s[i + 1..i + 1 + |part|];
        }
        assert forall i: nat :: OccursAt(s, part, i) ==> i == 0 || OccursAt(s[1..], part, i - 1);
      }
    }
  }

  lemma {:induction false} IndexIs(a: string, c: char, b: string)
    requires c !in a
    ensures IndexOf(a + [c] + b, c) == |a|
  {
    if a != "" {
      IndexIs(a[1..], c, b);
      assert (a + [c] + b)[1..] == a[1..] + [c] + b;
    }
  }

  lemma {:induction false} NoIndex(a: string, c: char)
    requires c !in a
    ensures IndexOf(a, c) == |a|
  {
    if a != "" {
      NoIndex(a[1..], c);
    }
  }

  lemma {:induction false} SplitHasNone(s: string, c: char)
    ensures forall part :: part in Split(s, c) ==> c !in part
    decreases |s|
  {
    var i := IndexOf(s, c);
    if i < |s| {
      SplitHasNone(s[i + 1..], c);
    } else {
      assert s[..i] == s;
    }
  }

  lemma SplitFirst(a: string, c: char, b: string)
    requires c !in a
    ensures Split(a + [c] + b, c) == [a] + Split(b, c)
  {
    IndexIs(a, c, b);
    var s := a + [c] + b;
    assert s[..|a|] == a && s[|a| + 1..] == b;
  }

  predicate Blank(pad: string) {
    forall i :: 0 <= i < |pad| ==> IsSpace(pad[i])
  }

  lemma {:induction false} TrimPad(pad: string, s: string)
    requires Blank(pad) && Tight(s)
    ensures Trim(pad + s) == s
  {
    if pad == "" {
      assert pad + s == s;
      TightStays(s);
    } else {
      TrimPad(pad[1..], s);
      assert (pad + s)[1..] == pad[1..] + s;
    }
  }

  lemma TrimAllFirst(first: string, rest: seq<string>)
    ensures TrimAll([first] + rest) == [Trim(first)] + TrimAll(rest)
  {
  }

  /** Joining tight parts with a separator followed by spaces and splitting again gives the parts back. */
  lemma {:induction false} SplitJoin(lead: string, parts: seq<string>, c: char, pad: string)
    requires parts != [] && !IsSpace(c) && Blank(pad) && Blank(lead)
    requires forall part :: part in parts ==> Tight(part) && c !in part
    ensures TrimAll(Split(lead + Join(parts, [c] + pad), c)) == parts
    decreases |parts|
  {
    var first, rest := parts[0], parts[1..];
    assert first in parts && forall part :: part in rest ==> part in parts;
    assert parts == [first] + rest;
    if rest == [] {
      LastPart(lead, first, c);
    } else {
      var joined := Join(rest, [c] + pad);
      assert lead + Join(parts, [c] + pad) == (lead + first) + [c] + (pad + joined);
      SplitJoin(pad, rest, c, pad);
      FirstPart(lead, first, c, pad + joined);
    }
  }

  lemma LastPart(lead: string, part: string, c: char)
    requires Blank(lead) && Tight(part) && c !in part && !IsSpace(c)
    ensures TrimAll(Split(lead + part, c)) == [part]
  {
    TrimPad(lead, part);
    BlankHasNone(lead, c);
    NoIndex(lead + part, c);
  }

  lemma FirstPart(lead: string, part: string, c: char, more: string)
    requires Blank(lead) && Tight(part) && c !in part && !IsSpace(c)
    ensures TrimAll(Split((lead + part) + [c] + more, c)) == [part] + TrimAll(Split(more, c))
  {
    TrimPad(lead, part);
    BlankHasNone(lead, c);
    SplitFirst(lead + part, c, more);
    TrimAllFirst(lead + part, Split(more, c));
  }

  lemma BlankHasNone(pad: string, c: char)
    requires Blank(pad) && !IsSpace(c)
    ensures c !in pad
  {
  }
}
