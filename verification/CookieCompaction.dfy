/**
 Compaction of a Cookie header to a length limit: the first cookie of every name is a candidate,
 those of sessions and logins come first, and as many as fit are kept.
 */
module CookieCompaction {
  import Text
  import Seqs

  const SEP := "; "

  const IMPORTANT := ["jsessionid", "session", "sessionid", "phpsessid", "asp.net_sessionid", "auth",
                      "token", "csrf", "xsrf", "castgc", "tgc", "sid"]

  function NameOf(item: string): string {
    var i := Text.IndexOf(item, '=');
    if i < |item| then Text.Trim(item[..i]) else item
  }

  function KeyOf(item: string): string {
    Text.Lower(NameOf(item))
  }

  predicate AnyIn(text: string, parts: seq<string>) {
    parts != [] && (Text.Contains(text, parts[0]) || AnyIn(text, parts[1..]))
  }

  predicate Important(item: string) {
    var name := Text.Lower(Text.Trim(NameOf(item)));
    name != "" && AnyIn(name, IMPORTANT)
  }

  // ---------- Specification ----------

  /** The candidates: not blank, and the first of their name; `seen` are the names that came before. */
  function Candidates(parts: seq<string>, seen: set<string>): seq<string> {
    if parts == [] then []
    else
      var item := Text.Trim(parts[0]);
      if item == "" || KeyOf(item) in seen then Candidates(parts[1..], seen)
      else [item] + Candidates(parts[1..], seen + {KeyOf(item)})
  }

  function Select(items: seq<string>, important: bool): seq<string> {
    if items == [] then []
    else if Important(items[0]) == important then [items[0]] + Select(items[1..], important)
    else Select(items[1..], important)
  }

  function Ordered(items: seq<string>): seq<string> {
    Select(items, true) + Select(items, false)
  }

  /** The room an item takes beside the items kept so far. */
  function Cost(item: string, kept: seq<string>): nat {
    |item| + if kept == [] then 0 else 2
  }

  function Pack(items: seq<string>, kept: seq<string>, used: nat, limit: int): seq<string>
    decreases |items|
  {
    if items == [] then kept
    else if used + Cost(items[0], kept) > limit then Pack(items[1..], kept, used, limit)
    else Pack(items[1..], kept + [items[0]], used + Cost(items[0], kept), limit)
  }

  function Kept(v: string, limit: int): seq<string> {
    Pack(Ordered(Candidates(Text.Split(v, ';'), {})), [], 0, limit)
  }

  function Compact(v: string, limit: int): string {
    if limit <= 0 then "" else Text.Join(Kept(v, limit), SEP)
  }

  // ---------- The compaction loops ----------

  method CompactHeader(v: string, limit: int) returns (r: string)
    ensures r == Compact(v, limit)
  {
    if limit <= 0 {
      return "";
    }
    var important, others := Collect(Text.Split(v, ';'));
    var kept := Fill(important + others, limit);
    if |kept| == 0 {
      return "";
    }
    r := Text.Join(kept, SEP);
  }

  method Fill(items: seq<string>, limit: int) returns (kept: seq<string>)
    ensures kept == Pack(items, [], 0, limit)
  {
    kept := [];
    var used: nat, i := 0, 0;
    while i < |items|
      invariant 0 <= i <= |items|
      invariant Pack(items[i..], kept, used, limit) == Pack(items, [], 0, limit)
    {
      assert items[i..][1..] == items[i + 1..];
      var cost := |items[i]|;
      if |kept| > 0 {
        cost := cost + 2;
      }
      if used + cost <= limit {
        kept := kept + [items[i]];
        used := used + cost;
      }
      i := i + 1;
    }
  }

  method Collect(parts: seq<string>) returns (important: seq<string>, others: seq<string>)
    ensures important == Select(Candidates(parts, {}), true)
    ensures others == Select(Candidates(parts, {}), false)
  {
    important, others := [], [];
    var seen: set<string>, i := {}, 0;
    while i < |parts|
      invariant 0 <= i <= |parts|
      invariant important + Select(Candidates(parts[i..], seen), true) == Select(Candidates(parts, {}), true)
      invariant others + Select(Candidates(parts[i..], seen), false) == Select(Candidates(parts, {}), false)
    {
      assert parts[i..][1..] == parts[i + 1..];
      var item := Text.Trim(parts[i]);
      i := i + 1;
      if item == "" || KeyOf(item) in seen {
        continue;
      }
      ghost var later := Candidates(parts[i..], seen + {KeyOf(item)});
      assert ([item] + later)[1..] == later;
      seen := seen + {KeyOf(item)};
      if Important(item) {
        Seqs.AppendAssoc(important, [item], Select(later, true));
        important := important + [item];
      } else {
        Seqs.AppendAssoc(others, [item], Select(later, false));
        others := others + [item];
      }
    }
  }

  // ---------- Names ----------

  /** A cookie with this name; the name has no spaces around it and no equals sign in it. */
  predicate Named(item: string, name: string) {
    Text.Tight(name) && '=' !in name && (item == name || (|name| < |item| && item[..|name|] == name && item[|name|] == '='))
  }

  lemma NameIs(item: string, name: string)
    requires Named(item, name)
    ensures NameOf(item) == name
  {
    Text.TightStays(name);
    if item == name {
      Text.NoIndex(item, '=');
    } else {
      var value := item[|name| + 1..];
      assert item == name + ['='] + value;
      Text.IndexIs(name, '=', value);
    }
  }

  /** Two cookies count as one exactly if their names differ in letter case only. */
  lemma NamesAgree(a: string, x: string, b: string, y: string)
    requires Named(a, x) && Named(b, y)
    ensures KeyOf(a) == KeyOf(b) <==> Text.SameText(x, y)
  {
    NameIs(a, x);
    NameIs(b, y);
    Text.LowerIs(x, y);
  }

  /** One of these words stands in the name. */
  ghost predicate Telling(name: string) {
    exists word, i: nat :: IsWord(word) && Text.OccursAt(name, word, i)
  }

  predicate IsWord(word: string) {
    word in {"jsessionid", "session", "sessionid", "phpsessid", "asp.net_sessionid", "auth", "token", "csrf", "xsrf", "castgc", "tgc", "sid"}
  }

  lemma {:induction false} AnyInIs(text: string, parts: seq<string>)
    ensures AnyIn(text, parts) <==> exists word :: word in parts && Text.Contains(text, word)
  {
    if parts != [] {
      AnyInIs(text, parts[1..]);
      if AnyIn(text, parts) && !Text.Contains(text, parts[0]) {
        var word :| word in parts[1..] && Text.Contains(text, word);
        assert word in parts;
      }
      assert parts[0] in parts;
    }
  }

  /** A cookie is important exactly if one of the words for sessions and logins stands in its name, whatever the letter case. */
  lemma ImportantIs(item: string, name: string)
    requires Named(item, name)
    ensures Important(item) <==> Telling(Text.Lower(name))
  {
    var lower := Text.Lower(name);
    NameIs(item, name);
    Text.TightStays(name);
    AnyInIs(lower, IMPORTANT);
    if Telling(lower) {
      var word, i: nat :| IsWord(word) && Text.OccursAt(lower, word, i);
      Text.ContainsIs(lower, word);
      WordsAre(word);
    }
    if Important(item) {
      var word :| word in IMPORTANT && Text.Contains(lower, word);
      Text.ContainsIs(lower, word);
      var i: nat :| Text.OccursAt(lower, word, i);
      WordsAre(word);
    }
  }

  lemma WordsAre(word: string)
    ensures word in IMPORTANT <==> IsWord(word)
    ensures IsWord(word) ==> |word| > 0
  {
  }

  // ---------- It fits ----------

  lemma {:induction false} JoinGrows(parts: seq<string>, item: string)
    ensures |Text.Join(parts + [item], SEP)| == |Text.Join(parts, SEP)| + Cost(item, parts)
  {
    if parts == [] {
      assert parts + [item] == [item];
    } else {
      JoinGrows(parts[1..], item);
      assert (parts + [item])[1..] == parts[1..] + [item];
    }
  }

  /** Packing keeps to the limit, keeps what it has, and leaves out only what does not fit beside the result. */
  lemma {:induction false} PackFits(items: seq<string>, kept: seq<string>, used: nat, limit: int)
    requires used == |Text.Join(kept, SEP)| && used <= limit
    ensures used <= |Text.Join(Pack(items, kept, used, limit), SEP)| <= limit
    ensures kept <= Pack(items, kept, used, limit)
    ensures forall item :: item in items && item !in Pack(items, kept, used, limit) ==>
                             |Text.Join(Pack(items, kept, used, limit) + [item], SEP)| > limit
    decreases |items|
  {
    if items != [] {
      var item, rest := items[0], items[1..];
      assert items == [item] + rest;
      var packed := Pack(items, kept, used, limit);
      if used + Cost(item, kept) > limit {
        PackFits(rest, kept, used, limit);
        JoinGrows(packed, item);
      } else {
        JoinGrows(kept, item);
        PackFits(rest, kept + [item], used + Cost(item, kept), limit);
        assert (kept + [item])[|kept|] == item;
        assert packed[|kept|] == item;
      }
    }
  }

  /** The result never exceeds the limit. */
  lemma CompactFits(v: string, limit: int)
    requires limit >= 0
    ensures |Compact(v, limit)| <= limit
  {
    if limit > 0 {
      PackFits(Ordered(Candidates(Text.Split(v, ';'), {})), [], 0, limit);
    }
  }

  /** No candidate that was left out could be added. */
  lemma NothingElseFits(v: string, limit: int, item: string)
    requires limit > 0 && item in Candidates(Text.Split(v, ';'), {}) && item !in Kept(v, limit)
    ensures |Text.Join(Kept(v, limit) + [item], SEP)| > limit
  {
    var items := Candidates(Text.Split(v, ';'), {});
    SelectFacts(items, true);
    SelectFacts(items, false);
    assert item in Ordered(items);
    PackFits(Ordered(items), [], 0, limit);
  }

  // ---------- Which cookies are kept, and in which order ----------

  lemma {:induction false} SelectFacts(items: seq<string>, important: bool)
    ensures forall item :: item in Select(items, important) <==> item in items && Important(item) == important
  {
    if items != [] {
      SelectFacts(items[1..], important);
      assert items == [items[0]] + items[1..];
    }
  }

  /** Every item is a trimmed part of the header with a name of its own. */
  ghost predicate Unique(items: seq<string>) {
    items == [] || (Differs(items[0], items[1..]) && Unique(items[1..]))
  }

  ghost predicate Differs(x: string, items: seq<string>) {
    forall item :: item in items ==> KeyOf(item) != KeyOf(x)
  }

  predicate Clean(item: string) {
    item != "" && Text.Tight(item) && ';' !in item
  }

  lemma {:induction false} CandidateFacts(parts: seq<string>, seen: set<string>)
    ensures Unique(Candidates(parts, seen))
    ensures forall item :: item in Candidates(parts, seen) ==> item != "" && KeyOf(item) !in seen && item in Text.TrimAll(parts)
    decreases |parts|
  {
    if parts != [] {
      var item, rest := Text.Trim(parts[0]), parts[1..];
      Text.TrimAllFirst(parts[0], rest);
      assert parts == [parts[0]] + rest;
      if item == "" || KeyOf(item) in seen {
        CandidateFacts(rest, seen);
      } else {
        CandidateFacts(rest, seen + {KeyOf(item)});
        var later := Candidates(rest, seen + {KeyOf(item)});
        assert ([item] + later)[1..] == later;
      }
    }
  }

  /** No part has this name. */
  predicate Unnamed(parts: seq<string>, key: string) {
    parts == [] || ((Text.Trim(parts[0]) == "" || KeyOf(Text.Trim(parts[0])) != key) && Unnamed(parts[1..], key))
  }

  /** The first cookie of every name is a candidate, whatever follows. */
  lemma {:induction false} FirstIsCandidate(before: seq<string>, part: string, after: seq<string>, seen: set<string>)
    requires Text.Trim(part) != "" && KeyOf(Text.Trim(part)) !in seen && Unnamed(before, KeyOf(Text.Trim(part)))
    ensures Text.Trim(part) in Candidates(before + [part] + after, seen)
    decreases |before|
  {
    var parts := before + [part] + after;
    if before == [] {
      assert parts[0] == part;
    } else {
      var item := Text.Trim(before[0]);
      assert parts[0] == before[0] && parts[1..] == before[1..] + [part] + after;
      FirstIsCandidate(before[1..], part, after, if item == "" || KeyOf(item) in seen then seen else seen + {KeyOf(item)});
    }
  }

  /** `part` is `whole` with items left out. */
  ghost predicate Within(part: seq<string>, whole: seq<string>) {
    if part == [] then true
    else whole != [] && ((part[0] == whole[0] && Within(part[1..], whole[1..])) || Within(part, whole[1..]))
  }

  lemma {:induction false} WithinAppend(a: seq<string>, b: seq<string>, c: seq<string>, d: seq<string>)
    requires Within(a, b) && Within(c, d)
    ensures Within(a + c, b + d)
    decreases |b|
  {
    if b == [] {
      assert a + c == c && b + d == d;
    } else {
      assert (b + d)[1..] == b[1..] + d;
      if a == [] {
        WithinAppend([], b[1..], c, d);
        assert a + c == c && [] + c == c;
      } else {
        assert (a + c)[1..] == a[1..] + c;
        if a[0] == b[0] && Within(a[1..], b[1..]) {
          WithinAppend(a[1..], b[1..], c, d);
        } else {
          WithinAppend(a, b[1..], c, d);
        }
      }
    }
  }

  lemma {:induction false} PackWithin(items: seq<string>, kept: seq<string>, used: nat, limit: int, whole: seq<string>)
    requires Within(kept, whole)
    ensures Within(Pack(items, kept, used, limit), whole + items)
    decreases |items|
  {
    if items == [] {
      assert whole + items == whole;
    } else {
      var item, rest := items[0], items[1..];
      assert whole + items == (whole + [item]) + rest;
      if used + Cost(item, kept) > limit {
        WithinAppend(kept, whole, [], [item]);
        assert kept + [] == kept;
        PackWithin(rest, kept, used, limit, whole + [item]);
      } else {
        assert Within([item], [item]);
        WithinAppend(kept, whole, [item], [item]);
        PackWithin(rest, kept + [item], used + Cost(item, kept), limit, whole + [item]);
      }
    }
  }

  lemma {:induction false} WithinMembers(part: seq<string>, whole: seq<string>)
    requires Within(part, whole)
    ensures forall item :: item in part ==> item in whole
    decreases |whole|
  {
    if part != [] {
      assert part == [part[0]] + part[1..] && whole == [whole[0]] + whole[1..];
      if part[0] == whole[0] && Within(part[1..], whole[1..]) {
        WithinMembers(part[1..], whole[1..]);
      } else {
        WithinMembers(part, whole[1..]);
      }
    }
  }

  lemma {:induction false} WithinUnique(part: seq<string>, whole: seq<string>)
    requires Within(part, whole) && Unique(whole)
    ensures Unique(part)
    decreases |whole|
  {
    if part != [] {
      if part[0] == whole[0] && Within(part[1..], whole[1..]) {
        WithinUnique(part[1..], whole[1..]);
        WithinMembers(part[1..], whole[1..]);
      } else {
        WithinUnique(part, whole[1..]);
      }
    }
  }

  /** No ordinary cookie stands before an important one. */
  ghost predicate ImportantFirst(items: seq<string>) {
    items == [] || ((Important(items[0]) || Ordinary(items)) && ImportantFirst(items[1..]))
  }

  ghost predicate Ordinary(items: seq<string>) {
    forall item :: item in items ==> !Important(item)
  }

  lemma {:induction false} WithinImportantFirst(part: seq<string>, whole: seq<string>)
    requires Within(part, whole) && ImportantFirst(whole)
    ensures ImportantFirst(part)
    decreases |whole|
  {
    if part != [] {
      WithinMembers(part, whole);
      if part[0] == whole[0] && Within(part[1..], whole[1..]) {
        WithinImportantFirst(part[1..], whole[1..]);
      } else {
        WithinImportantFirst(part, whole[1..]);
      }
    }
  }

  lemma {:induction false} OrdinaryOnly(items: seq<string>)
    requires Ordinary(items)
    ensures ImportantFirst(items)
  {
    if items != [] {
      assert Ordinary(items[1..]);
      OrdinaryOnly(items[1..]);
    }
  }

  lemma {:induction false} OrderedFirst(a: seq<string>, b: seq<string>)
    requires (forall i :: 0 <= i < |a| ==> Important(a[i])) && Ordinary(b)
    ensures ImportantFirst(a + b)
  {
    if a == [] {
      assert a + b == b;
      OrdinaryOnly(b);
    } else {
      OrderedFirst(a[1..], b);
      assert (a + b)[1..] == a[1..] + b;
    }
  }

  lemma {:induction false} UniqueAppend(a: seq<string>, b: seq<string>)
    requires Unique(a) && Unique(b) && forall i :: 0 <= i < |a| ==> Differs(a[i], b)
    ensures Unique(a + b)
  {
    if a == [] {
      assert a + b == b;
    } else {
      UniqueAppend(a[1..], b);
      assert (a + b)[1..] == a[1..] + b;
      assert Differs(a[0], a[1..] + b);
    }
  }

  lemma {:induction false} SelectWithin(items: seq<string>, important: bool)
    ensures Within(Select(items, important), items)
  {
    if items != [] {
      SelectWithin(items[1..], important);
      if Important(items[0]) == important {
        assert ([items[0]] + Select(items[1..], important))[1..] == Select(items[1..], important);
      }
    }
  }

  lemma {:induction false} SameName(items: seq<string>, x: string, y: string)
    requires Unique(items) && x in items && y in items && KeyOf(x) == KeyOf(y)
    ensures x == y
  {
    assert items == [items[0]] + items[1..];
    if x != items[0] && y != items[0] {
      SameName(items[1..], x, y);
    }
  }

  lemma OrderedFacts(items: seq<string>)
    requires Unique(items)
    ensures Unique(Ordered(items)) && ImportantFirst(Ordered(items))
    ensures forall item :: item in Ordered(items) <==> item in items
  {
    var a, b := Select(items, true), Select(items, false);
    SelectFacts(items, true);
    SelectFacts(items, false);
    SelectWithin(items, true);
    SelectWithin(items, false);
    WithinUnique(a, items);
    WithinUnique(b, items);
    forall i, y | 0 <= i < |a| && y in b
      ensures KeyOf(y) != KeyOf(a[i])
    {
      assert a[i] in a;
      if KeyOf(y) == KeyOf(a[i]) {
        SameName(items, a[i], y);
      }
    }
    assert forall i :: 0 <= i < |a| ==> a[i] in a;
    UniqueAppend(a, b);
    OrderedFirst(a, b);
  }

  lemma {:induction false} TrimAllClean(parts: seq<string>, item: string)
    requires item in Text.TrimAll(parts) && item != "" && forall part :: part in parts ==> ';' !in part
    ensures Clean(item)
  {
    var i :| 0 <= i < |parts| && Text.Trim(parts[i]) == item;
    assert parts[i] in parts;
    Text.TrimIsTight(parts[i]);
    Text.TrimMembers(parts[i]);
  }

  /** What is kept: parts of the header, trimmed, each name once, important ones first. */
  lemma KeptFacts(v: string, limit: int)
    ensures Unique(Kept(v, limit)) && ImportantFirst(Kept(v, limit))
    ensures forall item :: item in Kept(v, limit) ==> Clean(item) && item in Text.TrimAll(Text.Split(v, ';'))
  {
    var parts := Text.Split(v, ';');
    var items := Candidates(parts, {});
    var ordered := Ordered(items);
    CandidateFacts(parts, {});
    OrderedFacts(items);
    PackWithin(ordered, [], 0, limit, []);
    assert [] + ordered == ordered;
    WithinUnique(Kept(v, limit), ordered);
    WithinImportantFirst(Kept(v, limit), ordered);
    WithinMembers(Kept(v, limit), ordered);
    Text.SplitHasNone(v, ';');
    forall item | item in Kept(v, limit)
      ensures Clean(item)
    {
      TrimAllClean(parts, item);
    }
  }

  // ---------- Compacting again changes nothing ----------

  lemma {:induction false} UniqueStays(items: seq<string>, parts: seq<string>, seen: set<string>)
    requires Unique(items) && items == Text.TrimAll(parts)
    requires forall item :: item in items ==> item != "" && KeyOf(item) !in seen
    ensures Candidates(parts, seen) == items
    decreases |items|
  {
    if items != [] {
      var rest := parts[1..];
      Text.TrimAllFirst(parts[0], rest);
      assert parts == [parts[0]] + rest;
      assert items[1..] == Text.TrimAll(rest);
      assert items[0] in items && forall item :: item in items[1..] ==> item in items;
      UniqueStays(items[1..], rest, seen + {KeyOf(items[0])});
      assert items == [items[0]] + items[1..];
    }
  }

  lemma {:induction false} OrderStays(items: seq<string>)
    requires ImportantFirst(items)
    ensures Ordered(items) == items
  {
    if items != [] {
      OrderStays(items[1..]);
      assert items == [items[0]] + items[1..];
      if !Important(items[0]) {
        NoneImportant(items);
      }
    }
  }

  lemma {:induction false} NoneImportant(items: seq<string>)
    requires forall item :: item in items ==> !Important(item)
    ensures Select(items, true) == [] && Select(items, false) == items
  {
    if items != [] {
      assert items[0] in items && forall item :: item in items[1..] ==> item in items;
      NoneImportant(items[1..]);
    }
  }

  lemma {:induction false} PackAll(items: seq<string>, kept: seq<string>, limit: int)
    requires |Text.Join(kept + items, SEP)| <= limit
    ensures Pack(items, kept, |Text.Join(kept, SEP)|, limit) == kept + items
    decreases |items|
  {
    if items == [] {
      assert kept + items == kept;
    } else {
      var item, rest := items[0], items[1..];
      assert (kept + [item]) + rest == kept + items;
      JoinGrows(kept, item);
      PrefixShorter(kept + [item], rest);
      PackAll(rest, kept + [item], limit);
    }
  }

  lemma {:induction false} PrefixShorter(parts: seq<string>, more: seq<string>)
    ensures |Text.Join(parts, SEP)| <= |Text.Join(parts + more, SEP)|
    decreases |more|
  {
    if more == [] {
      assert parts + more == parts;
    } else {
      JoinGrows(parts, more[0]);
      PrefixShorter(parts + [more[0]], more[1..]);
      assert (parts + [more[0]]) + more[1..] == parts + more;
    }
  }

  lemma CompactTwice(v: string, limit: int)
    ensures Compact(Compact(v, limit), limit) == Compact(v, limit)
  {
    if limit > 0 {
      var kept, r := Kept(v, limit), Compact(v, limit);
      KeptFacts(v, limit);
      CompactFits(v, limit);
      ReadBack(kept, r);
      OrderStays(kept);
      assert [] + kept == kept;
      PackAll(kept, [], limit);
    }
  }

  lemma ReadBack(kept: seq<string>, r: string)
    requires Unique(kept) && (forall item :: item in kept ==> Clean(item)) && r == Text.Join(kept, SEP)
    ensures Candidates(Text.Split(r, ';'), {}) == kept
  {
    if kept == [] {
      assert Text.Split("", ';') == [""];
      assert Candidates([""], {}) == Candidates([""][1..], {});
    } else {
      Text.SplitJoin("", kept, ';', " ");
      assert "" + r == r && SEP == ";" + " ";
      UniqueStays(kept, Text.Split(r, ';'), {});
    }
  }
}
