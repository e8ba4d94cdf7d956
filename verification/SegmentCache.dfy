/**
 The adaptive segment cache: a byte-budgeted cache with expiry that evicts the least recently used
 segment first.
 */
module SegmentCache {
  import Seqs

  type Key = string
  type Bytes = seq<bv8>

  // ---------- Specification: a recency list, most recent first ----------

  datatype Item = Item(key: Key, data: Bytes, expiresAt: int)

  datatype State = State(limit: int, list: seq<Item>)

  const EMPTY := State(0, [])

  function Total(list: seq<Item>): (n: nat) {
    if list == [] then 0 else |list[0].data| + Total(list[1..])
  }

  function Keys(list: seq<Item>): set<Key> {
    if list == [] then {} else {list[0].key} + Keys(list[1..])
  }

  predicate Distinct(list: seq<Item>) {
    list == [] || (list[0].key !in Keys(list[1..]) && Distinct(list[1..]))
  }

  /** The items whose keys are not in `gone`. */
  function Drop(list: seq<Item>, gone: set<Key>): seq<Item> {
    if list == [] then []
    else if list[0].key in gone then Drop(list[1..], gone)
    else [list[0]] + Drop(list[1..], gone)
  }

  function Find(list: seq<Item>, key: Key): (r: seq<Item>)
    ensures |r| <= 1 && forall i :: 0 <= i < |r| ==> r[i].key == key && r[i] in list
  {
    if list == [] then [] else if list[0].key == key then [list[0]] else Find(list[1..], key)
  }

  /** The items that have not expired: a clock strictly past the expiry time is too late. */
  function Unexpired(list: seq<Item>, now: int): seq<Item> {
    if list == [] then []
    else if now > list[0].expiresAt then Unexpired(list[1..], now)
    else [list[0]] + Unexpired(list[1..], now)
  }

  /** Evict from the back while the budget is exceeded. */
  function Fit(list: seq<Item>, limit: int): seq<Item> {
    if list == [] || Total(list) <= limit then list else Fit(list[..|list| - 1], limit)
  }

  function Pruned(st: State, now: int): State {
    var live := Unexpired(st.list, now);
    st.(list := if st.limit > 0 then Fit(live, st.limit) else live)
  }

  datatype Lookup = Hit(data: Bytes) | Miss

  function GetResult(st: State, key: Key, now: int): Lookup {
    var found := Find(st.list, key);
    if found == [] || now > found[0].expiresAt then Miss else Hit(found[0].data)
  }

  function AfterGet(st: State, key: Key, now: int): State {
    var found := Find(st.list, key);
    if found == [] then st
    else if now > found[0].expiresAt then st.(list := Drop(st.list, {key}))
    else st.(list := [found[0]] + Drop(st.list, {key}))
  }

  /** A store is refused when it is empty, when there is no budget, or when it takes over half of it. */
  predicate Accepts(limit: int, data: Bytes) {
    0 < |data| && 0 < limit && |data| <= limit / 2
  }

  function AfterStore(st: State, key: Key, data: Bytes, ttl: int, now: int): State {
    if !Accepts(st.limit, data) then st
    else Pruned(st.(list := [Item(key, data, now + ttl)] + Drop(st.list, {key})), now)
  }

  function AfterSetLimit(st: State, limit: int, now: int): State {
    Pruned(st.(limit := limit), now)
  }

  // ---------- Facts about lists ----------

  lemma {:induction false} TotalAppend(a: seq<Item>, b: seq<Item>)
    ensures Total(a + b) == Total(a) + Total(b)
    decreases |a|
  {
    if a == [] {
      assert a + b == b;
    } else {
      TotalAppend(a[1..], b);
      assert (a + b)[1..] == a[1..] + b;
    }
  }

  lemma {:induction false} DropFacts(list: seq<Item>, gone: set<Key>)
    ensures Keys(Drop(list, gone)) == Keys(list) - gone
    ensures Distinct(list) ==> Distinct(Drop(list, gone))
    ensures Total(Drop(list, gone)) <= Total(list)
    ensures forall x :: x in Drop(list, gone) <==> x in list && x.key !in gone
    decreases |list|
  {
    if list != [] {
      DropFacts(list[1..], gone);
      var rest := Drop(list[1..], gone);
      assert ([list[0]] + rest)[1..] == rest;
      assert list == [list[0]] + list[1..];
    }
  }

  lemma {:induction false} UnexpiredFacts(list: seq<Item>, now: int)
    ensures Keys(Unexpired(list, now)) <= Keys(list)
    ensures Distinct(list) ==> Distinct(Unexpired(list, now))
    ensures Total(Unexpired(list, now)) <= Total(list)
    ensures forall x :: x in Unexpired(list, now) <==> x in list && now <= x.expiresAt
    decreases |list|
  {
    if list != [] {
      UnexpiredFacts(list[1..], now);
      var rest := Unexpired(list[1..], now);
      assert ([list[0]] + rest)[1..] == rest;
      assert list == [list[0]] + list[1..];
    }
  }

  lemma {:induction false} PrefixFacts(list: seq<Item>, n: nat)
    requires n <= |list|
    ensures Keys(list[..n]) <= Keys(list)
    ensures Distinct(list) ==> Distinct(list[..n])
    decreases n
  {
    if n > 0 {
      PrefixFacts(list[1..], n - 1);
      assert list[..n][1..] == list[1..][..n - 1];
    }
  }

  lemma {:induction false} FitIsPrefix(list: seq<Item>, limit: int)
    ensures Fit(list, limit) <= list
    ensures limit >= 0 ==> Total(Fit(list, limit)) <= limit
    ensures forall n :: |Fit(list, limit)| < n <= |list| ==> Total(list[..n]) > limit
    decreases |list|
  {
    if list != [] && Total(list) > limit {
      var shorter := list[..|list| - 1];
      FitIsPrefix(shorter, limit);
      forall n | |Fit(list, limit)| < n <= |list|
        ensures Total(list[..n]) > limit
      {
        if n == |list| {
          assert list[..n] == list;
        } else {
          assert list[..n] == shorter[..n];
        }
      }
    } else {
      assert list[..|list|] == list;
    }
  }

  /**
   After a prune with a positive budget the survivors are exactly the longest most-recent-first
   prefix of the unexpired items that fits; without a budget they are all the unexpired items.
   */
  lemma PruneIsExact(st: State, now: int)
    ensures var live, kept := Unexpired(st.list, now), Pruned(st, now).list;
            && kept <= live
            && (st.limit <= 0 ==> kept == live)
            && (st.limit > 0 ==> Total(kept) <= st.limit && forall n :: |kept| < n <= |live| ==> Total(live[..n]) > st.limit)
  {
    FitIsPrefix(Unexpired(st.list, now), st.limit);
  }

  lemma {:induction false} FindFacts(list: seq<Item>, key: Key)
    ensures Find(list, key) == [] <==> key !in Keys(list)
    decreases |list|
  {
    if list != [] {
      FindFacts(list[1..], key);
    }
  }

  // ---------- What every reachable state keeps ----------

  /** Keys are distinct, no item is empty, and a positive budget is respected. */
  ghost predicate Sound(st: State) {
    && Distinct(st.list)
    && (forall x :: x in st.list ==> |x.data| > 0)
    && (st.limit > 0 ==> Total(st.list) <= st.limit)
  }

  lemma PrunedIsSound(st: State, now: int)
    requires Distinct(st.list) && forall x :: x in st.list ==> |x.data| > 0
    ensures Sound(Pruned(st, now))
  {
    var live := Unexpired(st.list, now);
    UnexpiredFacts(st.list, now);
    FitIsPrefix(live, st.limit);
    PrefixFacts(live, |Fit(live, st.limit)|);
    assert Fit(live, st.limit) == live[..|Fit(live, st.limit)|];
  }

  lemma ToFront(list: seq<Item>, x: Item)
    requires Distinct(list)
    ensures Distinct([x] + Drop(list, {x.key}))
    ensures forall y :: y in [x] + Drop(list, {x.key}) <==> y == x || (y in list && y.key != x.key)
  {
    DropFacts(list, {x.key});
    assert ([x] + Drop(list, {x.key}))[1..] == Drop(list, {x.key});
  }

  lemma {:induction false} TotalSplit(list: seq<Item>, key: Key)
    requires Distinct(list)
    ensures Total(list) == Total(Find(list, key)) + Total(Drop(list, {key}))
    decreases |list|
  {
    if list != [] {
      TotalSplit(list[1..], key);
      if list[0].key == key {
        FindFacts(list[1..], key);
        assert Find(list[1..], key) == [];
        assert [list[0]][1..] == [];
      } else {
        var rest := Drop(list[1..], {key});
        assert ([list[0]] + rest)[1..] == rest;
      }
    }
  }

  lemma GetIsSound(st: State, key: Key, now: int)
    requires Sound(st)
    ensures Sound(AfterGet(st, key, now))
  {
    var found := Find(st.list, key);
    DropFacts(st.list, {key});
    if found != [] {
      ToFront(st.list, found[0]);
      TotalSplit(st.list, key);
      TotalAppend(found, Drop(st.list, {key}));
      assert found == [found[0]];
    }
  }

  lemma StoreIsSound(st: State, key: Key, data: Bytes, ttl: int, now: int)
    requires Sound(st)
    ensures Sound(AfterStore(st, key, data, ttl, now))
  {
    if Accepts(st.limit, data) {
      var x := Item(key, data, now + ttl);
      ToFront(st.list, x);
      PrunedIsSound(st.(list := [x] + Drop(st.list, {key})), now);
    }
  }

  /** A store is taken exactly when it is not empty and at most half of the budget. */
  lemma AcceptsIs(limit: int, data: Bytes)
    ensures Accepts(limit, data) <==> data != [] && 2 * |data| <= limit
  {
  }

  /** Any other store changes nothing. */
  lemma StoreIsRefused(st: State, key: Key, data: Bytes, ttl: int, now: int)
    requires data == [] || 2 * |data| > st.limit
    ensures AfterStore(st, key, data, ttl, now) == st
  {
  }

  /** A store of at most half the budget with a non-negative lifetime is never evicted by its own prune: it is found at once. */
  lemma StoreIsKept(st: State, key: Key, data: Bytes, ttl: int, now: int)
    requires data != [] && 2 * |data| <= st.limit && ttl >= 0
    ensures var st' := AfterStore(st, key, data, ttl, now);
            st'.list != [] && st'.list[0] == Item(key, data, now + ttl) && GetResult(st', key, now) == Hit(data)
  {
    AcceptsIs(st.limit, data);
    var x := Item(key, data, now + ttl);
    var list := [x] + Drop(st.list, {key});
    assert list[1..] == Drop(st.list, {key});
    var live := Unexpired(list, now);
    assert live[0] == x;
    FitIsPrefix(live, st.limit);
    assert live[..1] == [x] && Total([x]) == |data| + Total([x][1..]);
  }

  // ---------- Whole runs ----------

  datatype Op = Get(key: Key, now: int) | Store(key: Key, data: Bytes, ttl: int, now: int) | SetLimit(limit: int, now: int)

  function Apply(st: State, op: Op): State {
    match op
    case Get(key, now) => AfterGet(st, key, now)
    case Store(key, data, ttl, now) => AfterStore(st, key, data, ttl, now)
    case SetLimit(limit, now) => AfterSetLimit(st, limit, now)
  }

  function Run(ops: seq<Op>): State
    decreases |ops|
  {
    if ops == [] then EMPTY else Apply(Run(ops[..|ops| - 1]), ops[|ops| - 1])
  }

  /** The limit set last; there is none at first. */
  function LimitOf(ops: seq<Op>): int
    decreases |ops|
  {
    if ops == [] then 0
    else
      var last := ops[|ops| - 1];
      if last.SetLimit? then last.limit else LimitOf(ops[..|ops| - 1])
  }

  /** The last store of a key that was not empty and took at most half the limit, with its expiry time. */
  function LastStored(ops: seq<Op>, key: Key): (r: seq<Item>)
    decreases |ops|
  {
    if ops == [] then []
    else
      var before, last := ops[..|ops| - 1], ops[|ops| - 1];
      if last.Store? && last.key == key && last.data != [] && 2 * |last.data| <= LimitOf(before)
      then [Item(key, last.data, last.now + last.ttl)]
      else LastStored(before, key)
  }

  /** When a key was last accepted or hit, as a position in the run counted from 1; 0 if never. */
  function LastTouch(ops: seq<Op>, key: Key): (n: nat)
    ensures n <= |ops|
    decreases |ops|
  {
    if ops == [] then 0
    else
      var before, last := ops[..|ops| - 1], ops[|ops| - 1];
      if last.Store? && last.key == key && last.data != [] && 2 * |last.data| <= LimitOf(before) then |ops|
      else if last.Get? && last.key == key && GetResult(Run(before), key, last.now).Hit? then |ops|
      else LastTouch(before, key)
  }

  /** Strictly descending by rank. */
  ghost predicate Ranked(list: seq<Item>, rank: Key -> nat) {
    list == [] || ((forall k :: k in Keys(list[1..]) ==> rank(list[0].key) > rank(k)) && Ranked(list[1..], rank))
  }

  lemma {:induction false} DropRanked(list: seq<Item>, gone: set<Key>, rank: Key -> nat)
    requires Ranked(list, rank)
    ensures Ranked(Drop(list, gone), rank)
    decreases |list|
  {
    if list != [] {
      DropRanked(list[1..], gone, rank);
      DropFacts(list[1..], gone);
      var rest := Drop(list[1..], gone);
      assert ([list[0]] + rest)[1..] == rest;
    }
  }

  lemma {:induction false} UnexpiredRanked(list: seq<Item>, now: int, rank: Key -> nat)
    requires Ranked(list, rank)
    ensures Ranked(Unexpired(list, now), rank)
    decreases |list|
  {
    if list != [] {
      UnexpiredRanked(list[1..], now, rank);
      UnexpiredFacts(list[1..], now);
      var rest := Unexpired(list[1..], now);
      assert ([list[0]] + rest)[1..] == rest;
    }
  }

  lemma {:induction false} PrefixRanked(list: seq<Item>, n: nat, rank: Key -> nat)
    requires n <= |list| && Ranked(list, rank)
    ensures Ranked(list[..n], rank)
    decreases n
  {
    if n > 0 {
      PrefixRanked(list[1..], n - 1, rank);
      PrefixFacts(list[1..], n - 1);
      assert list[..n][1..] == list[1..][..n - 1];
    }
  }

  lemma {:induction false} RankedAgain(list: seq<Item>, rank: Key -> nat, rank': Key -> nat)
    requires Ranked(list, rank) && forall k :: k in Keys(list) ==> rank'(k) == rank(k)
    ensures Ranked(list, rank')
    decreases |list|
  {
    if list != [] {
      RankedAgain(list[1..], rank, rank');
    }
  }

  lemma PrunedRanked(st: State, now: int, rank: Key -> nat)
    requires Ranked(st.list, rank)
    ensures Ranked(Pruned(st, now).list, rank)
    ensures forall x :: x in Pruned(st, now).list ==> x in st.list && now <= x.expiresAt
  {
    var live := Unexpired(st.list, now);
    UnexpiredRanked(st.list, now, rank);
    UnexpiredFacts(st.list, now);
    FitIsPrefix(live, st.limit);
    PrefixRanked(live, |Fit(live, st.limit)|, rank);
    assert Fit(live, st.limit) == live[..|Fit(live, st.limit)|];
  }

  /** The list is in the order of last use and holds, for each of its keys, what was stored last. */
  ghost predicate Tracks(st: State, ops: seq<Op>) {
    && Sound(st)
    && st.limit == LimitOf(ops)
    && (forall x :: x in st.list ==> LastStored(ops, x.key) == [x])
    && Ranked(st.list, k => LastTouch(ops, k))
  }

  /** In every reachable state: sound accounting, last stored values, least recently used last. */
  lemma {:induction false} RunTracks(ops: seq<Op>)
    ensures Tracks(Run(ops), ops)
    decreases |ops|
  {
    if ops != [] {
      var before, last := ops[..|ops| - 1], ops[|ops| - 1];
      RunTracks(before);
      var st := Run(before);
      match last
      case Get(key, now) => GetTracks(st, ops, before, key, now);
      case Store(key, data, ttl, now) => StoreTracks(st, ops, before, key, data, ttl, now);
      case SetLimit(limit, now) => SetLimitTracks(st, ops, before, limit, now);
    }
  }

  lemma GetUnfolds(ops: seq<Op>, before: seq<Op>, key: Key, now: int, k: Key)
    requires ops == before + [Get(key, now)]
    ensures LimitOf(ops) == LimitOf(before) && LastStored(ops, k) == LastStored(before, k)
    ensures LastTouch(ops, k) ==
            if k == key && GetResult(Run(before), key, now).Hit? then |ops| else LastTouch(before, k)
  {
    assert ops[..|ops| - 1] == before;
  }

  lemma StoreUnfolds(ops: seq<Op>, before: seq<Op>, key: Key, data: Bytes, ttl: int, now: int, k: Key)
    requires ops == before + [Store(key, data, ttl, now)]
    ensures LimitOf(ops) == LimitOf(before)
    ensures LastStored(ops, k) ==
            if k == key && data != [] && 2 * |data| <= LimitOf(before) then [Item(key, data, now + ttl)] else LastStored(before, k)
    ensures LastTouch(ops, k) == if k == key && data != [] && 2 * |data| <= LimitOf(before) then |ops| else LastTouch(before, k)
  {
    assert ops[..|ops| - 1] == before;
  }

  /** Bringing an item to the front makes it the highest ranked one. */
  lemma FrontRanked(x: Item, list: seq<Item>, rank: Key -> nat, rank': Key -> nat)
    requires Ranked(list, rank)
    requires forall k :: k in Keys(list) && k != x.key ==> rank'(k) == rank(k) < rank'(x.key)
    ensures Ranked([x] + Drop(list, {x.key}), rank')
  {
    var rest := Drop(list, {x.key});
    DropFacts(list, {x.key});
    DropRanked(list, {x.key}, rank);
    RankedAgain(rest, rank, rank');
    assert ([x] + rest)[1..] == rest;
  }

  lemma GetTracks(st: State, ops: seq<Op>, before: seq<Op>, key: Key, now: int)
    requires ops == before + [Get(key, now)] && st == Run(before) && Tracks(st, before)
    ensures Tracks(AfterGet(st, key, now), ops)
  {
    GetIsSound(st, key, now);
    GetUnfolds(ops, before, key, now, key);
    var found, rank, rank' := Find(st.list, key), k => LastTouch(before, k), k => LastTouch(ops, k);
    forall k
      ensures LastStored(ops, k) == LastStored(before, k)
      ensures k != key || GetResult(st, key, now).Miss? ==> rank'(k) == rank(k)
    {
      GetUnfolds(ops, before, key, now, k);
    }
    DropFacts(st.list, {key});
    if found == [] {
      RankedAgain(st.list, rank, rank');
    } else if GetResult(st, key, now).Hit? {
      FrontRanked(found[0], st.list, rank, rank');
    } else {
      DropRanked(st.list, {key}, rank);
      RankedAgain(Drop(st.list, {key}), rank, rank');
    }
  }

  lemma StoreTracks(st: State, ops: seq<Op>, before: seq<Op>, key: Key, data: Bytes, ttl: int, now: int)
    requires ops == before + [Store(key, data, ttl, now)] && st == Run(before) && Tracks(st, before)
    ensures Tracks(AfterStore(st, key, data, ttl, now), ops)
  {
    StoreIsSound(st, key, data, ttl, now);
    AcceptsIs(st.limit, data);
    StoreUnfolds(ops, before, key, data, ttl, now, key);
    var rank, rank' := k => LastTouch(before, k), k => LastTouch(ops, k);
    forall k
      ensures k != key || !Accepts(st.limit, data) ==> LastStored(ops, k) == LastStored(before, k) && rank'(k) == rank(k)
    {
      StoreUnfolds(ops, before, key, data, ttl, now, k);
    }
    if Accepts(st.limit, data) {
      var x := Item(key, data, now + ttl);
      DropFacts(st.list, {key});
      FrontRanked(x, st.list, rank, rank');
      PrunedRanked(st.(list := [x] + Drop(st.list, {key})), now, rank');
    } else {
      RankedAgain(st.list, rank, rank');
    }
  }

  lemma SetLimitTracks(st: State, ops: seq<Op>, before: seq<Op>, limit: int, now: int)
    requires ops == before + [SetLimit(limit, now)] && st == Run(before) && Tracks(st, before)
    ensures Tracks(AfterSetLimit(st, limit, now), ops)
  {
    assert ops[..|ops| - 1] == before;
    var rank, rank' := k => LastTouch(before, k), k => LastTouch(ops, k);
    PrunedIsSound(st.(limit := limit), now);
    PrunedRanked(st.(limit := limit), now, rank);
    RankedAgain(Pruned(st.(limit := limit), now).list, rank, rank');
  }

  /** Over every run a hit returns the last accepted store of that key, and it has not expired. */
  lemma HitIsLastStored(ops: seq<Op>, key: Key, now: int)
    ensures var r := GetResult(Run(ops), key, now);
            r.Hit? ==> |LastStored(ops, key)| == 1 && LastStored(ops, key)[0].data == r.data
                       && now <= LastStored(ops, key)[0].expiresAt
  {
    RunTracks(ops);
    FindFacts(Run(ops).list, key);
  }

  /** Over every run a positive budget is never exceeded. */
  lemma BudgetHolds(ops: seq<Op>)
    ensures LimitOf(ops) > 0 ==> Total(Run(ops).list) <= LimitOf(ops)
  {
    RunTracks(ops);
  }

  // ---------- Nothing is evicted early ----------

  /** `x` is in the list with at most `budget` bytes of more recent items in front of it. */
  ghost predicate HeldWithin(list: seq<Item>, x: Item, budget: int) {
    if list == [] then false
    else if list[0].key == x.key then list[0] == x && budget >= 0
    else HeldWithin(list[1..], x, budget - |list[0].data|)
  }

  lemma {:induction false} HeldMore(list: seq<Item>, x: Item, budget: int, more: int)
    requires HeldWithin(list, x, budget) && budget <= more
    ensures HeldWithin(list, x, more)
    decreases |list|
  {
    if list[0].key != x.key {
      HeldMore(list[1..], x, budget - |list[0].data|, more - |list[0].data|);
    }
  }

  lemma {:induction false} HeldAfterDrop(list: seq<Item>, x: Item, budget: int, gone: set<Key>)
    requires HeldWithin(list, x, budget) && x.key !in gone
    ensures HeldWithin(Drop(list, gone), x, budget)
    decreases |list|
  {
    var rest := Drop(list[1..], gone);
    assert ([list[0]] + rest)[1..] == rest;
    if list[0].key != x.key {
      HeldAfterDrop(list[1..], x, budget - |list[0].data|, gone);
      if list[0].key in gone {
        HeldMore(rest, x, budget - |list[0].data|, budget);
      }
    }
  }

  lemma {:induction false} HeldUnexpired(list: seq<Item>, x: Item, budget: int, now: int)
    requires HeldWithin(list, x, budget) && now <= x.expiresAt
    ensures HeldWithin(Unexpired(list, now), x, budget)
    decreases |list|
  {
    var rest := Unexpired(list[1..], now);
    assert ([list[0]] + rest)[1..] == rest;
    if list[0].key != x.key {
      HeldUnexpired(list[1..], x, budget - |list[0].data|, now);
      if now > list[0].expiresAt {
        HeldMore(rest, x, budget - |list[0].data|, budget);
      }
    }
  }

  lemma {:induction false} HeldInPrefix(list: seq<Item>, x: Item, budget: int, n: nat)
    requires HeldWithin(list, x, budget) && n <= |list|
    requires n < |list| ==> Total(list[..n + 1]) > budget + |x.data|
    ensures HeldWithin(list[..n], x, budget)
    decreases |list|
  {
    if n < |list| {
      var head := list[..n + 1];
      assert Total(head) == |list[0].data| + Total(head[1..]);
      assert n == 0 ==> head[1..] == [];
      if list[0].key != x.key {
        HeldPositive(list[1..], x, budget - |list[0].data|);
        assert head[1..] == list[1..][..n];
        HeldInPrefix(list[1..], x, budget - |list[0].data|, n - 1);
        assert list[..n][1..] == list[1..][..n - 1];
      }
    } else {
      assert list[..n] == list;
    }
  }

  lemma {:induction false} HeldPositive(list: seq<Item>, x: Item, budget: int)
    requires HeldWithin(list, x, budget)
    ensures budget >= 0
    decreases |list|
  {
    if list[0].key != x.key {
      HeldPositive(list[1..], x, budget - |list[0].data|);
    }
  }

  lemma HeldThroughPrune(st: State, x: Item, budget: int, now: int)
    requires HeldWithin(st.list, x, budget) && now <= x.expiresAt
    requires st.limit > 0 ==> budget + |x.data| <= st.limit
    ensures HeldWithin(Pruned(st, now).list, x, budget)
  {
    var live := Unexpired(st.list, now);
    HeldUnexpired(st.list, x, budget, now);
    if st.limit > 0 {
      FitIsPrefix(live, st.limit);
      var n := |Fit(live, st.limit)|;
      HeldInPrefix(live, x, budget, n);
      assert Fit(live, st.limit) == live[..n];
    }
  }

  /** The bytes an operation may put in front of other items. */
  function Cost(st: State, op: Op): nat {
    match op
    case Get(key, now) => (match GetResult(st, key, now) case Hit(data) => |data| case Miss => 0)
    case Store(key, data, ttl, now) => if 2 * |data| <= st.limit then |data| else 0
    case SetLimit(_, _) => 0
  }

  function Costs(st: State, ops: seq<Op>): nat
    decreases |ops|
  {
    if ops == [] then 0 else Cost(st, ops[0]) + Costs(Apply(st, ops[0]), ops[1..])
  }

  function ApplyAll(st: State, ops: seq<Op>): State
    decreases |ops|
  {
    if ops == [] then st else ApplyAll(Apply(st, ops[0]), ops[1..])
  }

  /** None of these operations changes the budget, stores this key again, or looks past its expiry. */
  predicate Leaves(ops: seq<Op>, x: Item) {
    forall i :: 0 <= i < |ops| ==>
                  && !ops[i].SetLimit? && ops[i].now <= x.expiresAt
                  && (ops[i].Store? ==> ops[i].key != x.key)
  }

  lemma HeldThroughStep(st: State, x: Item, budget: nat, op: Op)
    requires HeldWithin(st.list, x, budget) && Leaves([op], x)
    requires st.limit > 0 ==> budget + Cost(st, op) + |x.data| <= st.limit
    ensures HeldWithin(Apply(st, op).list, x, budget + Cost(st, op)) && Apply(st, op).limit == st.limit
  {
    assert [op][0] == op;
    var found := Find(st.list, op.key);
    var rest := Drop(st.list, {op.key});
    if op.Store? {
      var y := Item(op.key, op.data, op.now + op.ttl);
      AcceptsIs(st.limit, op.data);
      if Accepts(st.limit, op.data) {
        HeldAfterDrop(st.list, x, budget, {op.key});
        assert ([y] + rest)[1..] == rest;
        HeldThroughPrune(st.(list := [y] + rest), x, budget + |op.data|, op.now);
      }
    } else if op.key == x.key {
      HeldIsFound(st.list, x, budget);
    } else {
      HeldAfterDrop(st.list, x, budget, {op.key});
      if found != [] {
        assert ([found[0]] + rest)[1..] == rest;
      }
    }
  }

  lemma {:induction false} HeldIsFound(list: seq<Item>, x: Item, budget: int)
    requires HeldWithin(list, x, budget)
    ensures Find(list, x.key) == [x]
    decreases |list|
  {
    if list[0].key != x.key {
      HeldIsFound(list[1..], x, budget - |list[0].data|);
    }
  }

  lemma {:induction false} HeldThroughRun(st: State, x: Item, budget: nat, ops: seq<Op>)
    requires HeldWithin(st.list, x, budget) && Leaves(ops, x)
    requires st.limit > 0 ==> budget + Costs(st, ops) + |x.data| <= st.limit
    ensures HeldWithin(ApplyAll(st, ops).list, x, budget + Costs(st, ops))
    decreases |ops|
  {
    if ops != [] {
      HeldThroughStep(st, x, budget, ops[0]);
      HeldThroughRun(Apply(st, ops[0]), x, budget + Cost(st, ops[0]), ops[1..]);
    }
  }

  /**
   Retention: an accepted store stays available for as long as it has not expired and the bytes
   stored or hit since, together with its own, fit the budget.
   */
  lemma StoreIsRetained(st: State, key: Key, data: Bytes, ttl: int, now: int, ops: seq<Op>, later: int)
    requires data != [] && 2 * |data| <= st.limit && ttl >= 0 && later <= now + ttl
    requires Leaves(ops, Item(key, data, now + ttl))
    requires var st1 := AfterStore(st, key, data, ttl, now); Costs(st1, ops) + |data| <= st.limit
    ensures var st1 := AfterStore(st, key, data, ttl, now); GetResult(ApplyAll(st1, ops), key, later) == Hit(data)
  {
    var x, st1 := Item(key, data, now + ttl), AfterStore(st, key, data, ttl, now);
    StoreIsKept(st, key, data, ttl, now);
    HeldThroughRun(st1, x, 0, ops);
    HeldIsFound(ApplyAll(st1, ops).list, x, Costs(st1, ops));
  }

  // ---------- The cache itself ----------

  datatype Entry = Entry(data: Bytes, expiresAt: int)

  /** The items of the recency list `order`, with their contents from the map. */
  ghost function Items(order: seq<Key>, entries: map<Key, Entry>): (list: seq<Item>)
    requires forall i :: 0 <= i < |order| ==> order[i] in entries
    ensures |list| == |order|
  {
    if order == [] then []
    else
      var e := entries[order[0]];
      [Item(order[0], e.data, e.expiresAt)] + Items(order[1..], entries)
  }

  function Remove(order: seq<Key>, key: Key): seq<Key> {
    if order == [] then [] else if order[0] == key then order[1..] else [order[0]] + Remove(order[1..], key)
  }

  ghost function KeySet(order: seq<Key>): (r: set<Key>)
    ensures forall k :: k in r <==> k in order
  {
    if order == [] then {} else {order[0]} + KeySet(order[1..])
  }

  lemma {:induction false} RemoveFacts(order: seq<Key>, key: Key)
    requires Seqs.Distinct(order)
    ensures Seqs.Distinct(Remove(order, key)) && KeySet(Remove(order, key)) == KeySet(order) - {key}
    decreases |order|
  {
    if order != [] && order[0] != key {
      RemoveFacts(order[1..], key);
      var rest := Remove(order[1..], key);
      assert ([order[0]] + rest)[1..] == rest;
    }
  }

  lemma {:induction false} ItemsFacts(order: seq<Key>, entries: map<Key, Entry>)
    requires Seqs.Distinct(order) && KeySet(order) <= entries.Keys && forall i :: 0 <= i < |order| ==> order[i] in entries
    ensures Keys(Items(order, entries)) == KeySet(order) && Distinct(Items(order, entries))
    ensures forall k :: k in KeySet(order) ==> Find(Items(order, entries), k) == [Item(k, entries[k].data, entries[k].expiresAt)]
    decreases |order|
  {
    if order != [] {
      ItemsFacts(order[1..], entries);
      var list := Items(order, entries);
      assert list[1..] == Items(order[1..], entries);
    }
  }

  /** Items do not depend on entries outside the list. */
  lemma {:induction false} ItemsFrame(order: seq<Key>, a: map<Key, Entry>, b: map<Key, Entry>)
    requires forall i :: 0 <= i < |order| ==> order[i] in a && order[i] in b && a[order[i]] == b[order[i]]
    ensures Items(order, a) == Items(order, b)
    decreases |order|
  {
    if order != [] {
      ItemsFrame(order[1..], a, b);
    }
  }

  lemma {:induction false} ItemsRemove(order: seq<Key>, entries: map<Key, Entry>, key: Key)
    requires Seqs.Distinct(order) && forall i :: 0 <= i < |order| ==> order[i] in entries
    ensures forall i :: 0 <= i < |Remove(order, key)| ==> Remove(order, key)[i] in entries
    ensures Items(Remove(order, key), entries) == Drop(Items(order, entries), {key})
    decreases |order|
  {
    if order != [] {
      ItemsRemove(order[1..], entries, key);
      var list := Items(order, entries);
      assert list[1..] == Items(order[1..], entries);
      if order[0] == key {
        RemoveAbsent(order[1..], key);
      } else {
        var rest := Remove(order[1..], key);
        assert ([order[0]] + rest)[1..] == rest;
      }
    }
  }

  lemma {:induction false} RemoveAbsent(order: seq<Key>, key: Key)
    requires key !in KeySet(order)
    ensures Remove(order, key) == order
    decreases |order|
  {
    if order != [] {
      RemoveAbsent(order[1..], key);
    }
  }

  class Cache {
    var maxBytes: int
    var totalBytes: int
    var entries: map<Key, Entry>
    var order: seq<Key>

    /** Map and recency list hold the same keys, and the byte count is the sum of the entries. */
    ghost predicate Valid()
      reads this
    {
      && Seqs.Distinct(order)
      && KeySet(order) == entries.Keys
      && (forall i :: 0 <= i < |order| ==> order[i] in entries)
      && totalBytes == Total(Items(order, entries))
    }

    ghost function View(): State
      requires Valid()
      reads this
    {
      State(maxBytes, Items(order, entries))
    }

    constructor ()
      ensures Valid() && View() == EMPTY
    {
      maxBytes, totalBytes, entries, order := 0, 0, map[], [];
    }

    method RemoveEntry(key: Key)
      requires Valid() && key in entries
      modifies this
      ensures Valid() && entries == old(entries) - {key}
      ensures View() == old(View()).(list := Drop(old(View()).list, {key}))
    {
      ghost var list := Items(order, entries);
      ItemsFacts(order, entries);
      TotalSplit(list, key);
      assert [Item(key, entries[key].data, entries[key].expiresAt)][1..] == [];
      ItemsRemove(order, entries, key);
      RemoveFacts(order, key);
      ItemsFrame(Remove(order, key), entries, entries - {key});
      totalBytes := totalBytes - |entries[key].data|;
      entries := entries - {key};
      order := Remove(order, key);
    }

    method MoveToFront(key: Key)
      requires Valid() && key in entries
      modifies this`order
      ensures Valid()
      ensures View() == old(View()).(list := Find(old(View()).list, key) + Drop(old(View()).list, {key}))
    {
      ghost var list := Items(order, entries);
      ItemsFacts(order, entries);
      TotalSplit(list, key);
      TotalAppend(Find(list, key), Drop(list, {key}));
      ItemsRemove(order, entries, key);
      RemoveFacts(order, key);
      assert ([key] + Remove(order, key))[1..] == Remove(order, key);
      order := [key] + Remove(order, key);
    }

    method Get(key: Key, now: int) returns (r: Lookup)
      requires Valid()
      modifies this
      ensures Valid()
      ensures r == GetResult(old(View()), key, now) && View() == AfterGet(old(View()), key, now)
    {
      ItemsFacts(order, entries);
      FindFacts(Items(order, entries), key);
      if key !in entries {
        return Miss;
      }
      var e := entries[key];
      if now > e.expiresAt {
        RemoveEntry(key);
        return Miss;
      }
      MoveToFront(key);
      return Hit(e.data);
    }

    method Prune(now: int)
      requires Valid()
      modifies this
      ensures Valid() && View() == Pruned(old(View()), now)
    {
      RemoveExpired(now);
      while maxBytes > 0 && totalBytes > maxBytes && |order| > 0
        invariant Valid() && maxBytes == old(maxBytes)
        invariant maxBytes > 0 ==> Fit(Items(order, entries), maxBytes) == Fit(Unexpired(old(View()).list, now), maxBytes)
        invariant maxBytes <= 0 ==> Items(order, entries) == Unexpired(old(View()).list, now)
        decreases |order|
      {
        LastDropped(order, entries);
        RemoveEntry(order[|order| - 1]);
      }
    }

    method RemoveExpired(now: int)
      requires Valid()
      modifies this
      ensures Valid() && View() == old(View()).(list := Unexpired(old(View()).list, now))
    {
      var keys := entries.Keys;
      ghost var list, gone: set<Key>, was := Items(order, entries), {}, entries;
      DropNothing(list);
      ItemsMatch(order, entries);
      while keys != {}
        invariant Valid() && maxBytes == old(maxBytes)
        invariant keys <= entries.Keys && gone !! keys
        invariant forall k :: k in entries ==> k in was && entries[k] == was[k]
        invariant Judged(was, keys, gone, now)
        invariant Items(order, entries) == Drop(list, gone)
        decreases |keys|
      {
        var k :| k in keys;
        JudgeOne(was, keys, gone, now, k);
        keys := keys - {k};
        if now > entries[k].expiresAt {
          DropTwice(list, gone, {k});
          RemoveEntry(k);
          gone := gone + {k};
        }
      }
      DropExpired(list, gone, now, was);
    }

    method Store(key: Key, data: Bytes, ttl: int, now: int)
      requires Valid()
      modifies this
      ensures Valid() && View() == AfterStore(old(View()), key, data, ttl, now)
    {
      if |data| == 0 || maxBytes <= 0 || |data| > maxBytes / 2 {
        return;
      }
      if key in entries {
        Update(key, Entry(data, now + ttl));
      } else {
        Insert(key, Entry(data, now + ttl));
      }
      Prune(now);
    }

    /** Replaces an entry in place and brings it to the front. */
    method Update(key: Key, e: Entry)
      requires Valid() && key in entries
      modifies this
      ensures Valid() && maxBytes == old(maxBytes)
      ensures Items(order, entries) == [Item(key, e.data, e.expiresAt)] + Drop(old(Items(order, entries)), {key})
    {
      UpdateTotals(order, entries, key, e);
      totalBytes := totalBytes - |entries[key].data|;
      entries := entries[key := e];
      totalBytes := totalBytes + |e.data|;
      MoveToFront(key);
    }

    method Insert(key: Key, e: Entry)
      requires Valid() && key !in entries
      modifies this
      ensures Valid() && maxBytes == old(maxBytes)
      ensures Items(order, entries) == [Item(key, e.data, e.expiresAt)] + Drop(old(Items(order, entries)), {key})
    {
      ItemsFacts(order, entries);
      DropAbsent(Items(order, entries), key);
      ItemsInsert(order, entries, key, e);
      order := [key] + order;
      entries := entries[key := e];
      totalBytes := totalBytes + |e.data|;
    }

    method SetLimit(limit: int, now: int)
      requires Valid()
      modifies this
      ensures Valid() && View() == AfterSetLimit(old(View()), limit, now)
    {
      maxBytes := limit;
      Prune(now);
    }
  }

  /** Of the entries looked at, exactly the expired ones are gone. */
  ghost predicate Judged(was: map<Key, Entry>, todo: set<Key>, gone: set<Key>, now: int) {
    forall k :: k in was && k !in todo ==> (k in gone <==> now > was[k].expiresAt)
  }

  lemma JudgeOne(was: map<Key, Entry>, todo: set<Key>, gone: set<Key>, now: int, k: Key)
    requires Judged(was, todo, gone, now) && k in todo && k in was && gone !! todo
    ensures Judged(was, todo - {k}, if now > was[k].expiresAt then gone + {k} else gone, now)
  {
  }

  lemma ItemsInsert(order: seq<Key>, entries: map<Key, Entry>, key: Key, e: Entry)
    requires Seqs.Distinct(order) && key !in entries && KeySet(order) == entries.Keys && forall i :: 0 <= i < |order| ==> order[i] in entries
    ensures Seqs.Distinct([key] + order) && KeySet([key] + order) == entries[key := e].Keys
    ensures forall i :: 0 <= i < |order| + 1 ==> ([key] + order)[i] in entries[key := e]
    ensures var list := [Item(key, e.data, e.expiresAt)] + Items(order, entries);
            Items([key] + order, entries[key := e]) == list && Total(list) == Total(Items(order, entries)) + |e.data|
  {
    ItemsFrame(order, entries, entries[key := e]);
    assert ([key] + order)[1..] == order;
    assert ([Item(key, e.data, e.expiresAt)] + Items(order, entries))[1..] == Items(order, entries);
  }

  lemma {:induction false} ItemsMatch(order: seq<Key>, entries: map<Key, Entry>)
    requires forall i :: 0 <= i < |order| ==> order[i] in entries
    ensures forall x :: x in Items(order, entries) ==> x.key in entries && entries[x.key].expiresAt == x.expiresAt
    decreases |order|
  {
    if order != [] {
      ItemsMatch(order[1..], entries);
      assert Items(order, entries)[1..] == Items(order[1..], entries);
    }
  }

  lemma TotalOfOne(x: Item)
    ensures Total([x]) == |x.data|
  {
    assert [x][1..] == [];
  }

  lemma UpdateTotals(order: seq<Key>, entries: map<Key, Entry>, key: Key, e: Entry)
    requires Seqs.Distinct(order) && KeySet(order) == entries.Keys && key in entries
    requires forall i :: 0 <= i < |order| ==> order[i] in entries
    ensures var list, list' := Items(order, entries), Items(order, entries[key := e]);
            && Total(list') == Total(list) - |entries[key].data| + |e.data|
            && Find(list', key) == [Item(key, e.data, e.expiresAt)]
            && Drop(list', {key}) == Drop(list, {key})
  {
    ItemsFacts(order, entries);
    ItemsFacts(order, entries[key := e]);
    ItemsUpdate(order, entries, key, e);
    TotalSplit(Items(order, entries), key);
    TotalSplit(Items(order, entries[key := e]), key);
    TotalOfOne(Item(key, entries[key].data, entries[key].expiresAt));
    TotalOfOne(Item(key, e.data, e.expiresAt));
  }

  lemma {:induction false} ItemsUpdate(order: seq<Key>, entries: map<Key, Entry>, key: Key, e: Entry)
    requires forall i :: 0 <= i < |order| ==> order[i] in entries
    ensures Drop(Items(order, entries[key := e]), {key}) == Drop(Items(order, entries), {key})
    decreases |order|
  {
    if order != [] {
      ItemsUpdate(order[1..], entries, key, e);
      assert Items(order, entries)[1..] == Items(order[1..], entries);
      assert Items(order, entries[key := e])[1..] == Items(order[1..], entries[key := e]);
    }
  }

  lemma {:induction false} DropNothing(list: seq<Item>)
    ensures Drop(list, {}) == list
    decreases |list|
  {
    if list != [] {
      DropNothing(list[1..]);
    }
  }

  lemma {:induction false} DropAbsent(list: seq<Item>, key: Key)
    requires key !in Keys(list)
    ensures Drop(list, {key}) == list
    decreases |list|
  {
    if list != [] {
      DropAbsent(list[1..], key);
    }
  }

  lemma {:induction false} DropTwice(list: seq<Item>, a: set<Key>, b: set<Key>)
    ensures Drop(Drop(list, a), b) == Drop(list, a + b)
    decreases |list|
  {
    if list != [] {
      DropTwice(list[1..], a, b);
      var rest := Drop(list[1..], a);
      assert ([list[0]] + rest)[1..] == rest;
    }
  }

  lemma {:induction false} DropExpired(list: seq<Item>, gone: set<Key>, now: int, entries: map<Key, Entry>)
    requires forall x :: x in list ==> x.key in entries && entries[x.key].expiresAt == x.expiresAt
    requires forall k :: k in entries ==> (k in gone <==> now > entries[k].expiresAt)
    ensures Drop(list, gone) == Unexpired(list, now)
    decreases |list|
  {
    if list != [] {
      DropExpired(list[1..], gone, now, entries);
    }
  }

  lemma {:induction false} LastDropped(order: seq<Key>, entries: map<Key, Entry>)
    requires order != [] && Seqs.Distinct(order) && forall i :: 0 <= i < |order| ==> order[i] in entries
    ensures var list := Items(order, entries); Drop(list, {order[|order| - 1]}) == list[..|list| - 1]
    decreases |order|
  {
    var list, n := Items(order, entries), |order| - 1;
    assert list[1..] == Items(order[1..], entries);
    if n == 0 {
      assert list[1..] == [] && list[..0] == [];
    } else {
      LastDropped(order[1..], entries);
      assert order[1..][n - 1] == order[n];
      assert list[..n] == [list[0]] + list[1..][..n - 1];
    }
  }
}
