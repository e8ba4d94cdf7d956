/**
 Reassembly of catalog notifications: the messages of one source are collected until as many
 different devices have arrived as the source announced.
 */
module CatalogMerge {
  import Text
  import Seqs
  import P = CatalogPlan
  type Device = P.Device
  type Chunk = P.Chunk

  /** One notification: the announced number of devices of the whole catalog and the devices it carries. */
  datatype Notify = Notify(total: int, devices: Chunk)

  datatype Fragment = Fragment(total: int, order: seq<string>, devices: map<string, Device>, updatedAt: int)

  type Fragments = map<string, Fragment>

  datatype Outcome = Pending | Complete(devices: seq<Device>)

  const EXPIRY := 120

  // ---------- Specification ----------

  function Unexpired(fs: Fragments, now: int): Fragments {
    map s | s in fs && now - fs[s].updatedAt <= EXPIRY :: fs[s]
  }

  function Added(f: Fragment, item: Device): Fragment {
    var id := P.IdOf(item);
    if id == "" then f
    else f.(order := if id in f.devices then f.order else f.order + [id], devices := f.devices[id := item])
  }

  function Gather(f: Fragment, items: Chunk): Fragment
    decreases |items|
  {
    if items == [] then f else Gather(Added(f, items[0]), items[1..])
  }

  /** The fragment of the source that the notification adds to. */
  function Base(fs: Fragments, source: string, total: int, now: int): Fragment {
    if source in fs && fs[source].total == total then fs[source].(updatedAt := now) else Fragment(total, [], map[], now)
  }

  function Gathered(fs: Fragments, source: string, n: Notify, now: int): Fragment {
    Gather(Base(Unexpired(fs, now), source, n.total, now), n.devices)
  }

  predicate Whole(n: Notify) {
    n.total <= 0 || n.total <= |n.devices|
  }

  function AfterMerge(fs: Fragments, source: string, n: Notify, now: int): Fragments {
    if source == "" then fs
    else
      var f := Gathered(fs, source, n, now);
      if Whole(n) || |f.devices| >= n.total then Unexpired(fs, now) - {source}
      else Unexpired(fs, now)[source := f]
  }

  function Listed(order: seq<string>, devices: map<string, Device>): seq<Device> {
    if order == [] then []
    else (if order[0] in devices then [devices[order[0]]] else []) + Listed(order[1..], devices)
  }

  function Merged(fs: Fragments, source: string, n: Notify, now: int): Outcome {
    if source == "" || Whole(n) then Complete(n.devices)
    else
      var f := Gathered(fs, source, n, now);
      if |f.devices| < n.total then Pending else Complete(Listed(f.order, f.devices))
  }

  // ---------- Order and contents of a merged catalog ----------

  /** The identifiers that are new, in order of first appearance. */
  function NewIds(items: Chunk, known: set<string>): seq<string>
    decreases |items|
  {
    if items == [] then []
    else
      var id := P.IdOf(items[0]);
      if id == "" || id in known then NewIds(items[1..], known) else [id] + NewIds(items[1..], known + {id})
  }

  /** New devices are listed behind those that were there, in order of arrival. */
  lemma {:induction false} GatherOrder(f: Fragment, items: Chunk)
    ensures Gather(f, items).order == f.order + NewIds(items, f.devices.Keys)
    decreases |items|
  {
    if items != [] {
      var id, f' := P.IdOf(items[0]), Added(f, items[0]);
      GatherOrder(f', items[1..]);
      if id != "" && id !in f.devices {
        assert f'.devices.Keys == f.devices.Keys + {id};
        Seqs.AppendAssoc(f.order, [id], NewIds(items[1..], f'.devices.Keys));
      } else {
        assert f'.devices.Keys == f.devices.Keys;
      }
    }
  }

  /** The last record of an identifier, if there is one. */
  function LastOf(items: Chunk, id: string): (r: seq<Device>)
    ensures |r| <= 1 && forall d :: d in r ==> d in items && P.IdOf(d) == id
    decreases |items|
  {
    if items == [] then []
    else
      var later := LastOf(items[1..], id);
      if later != [] then later else if P.IdOf(items[0]) == id then [items[0]] else []
  }

  /** A device that came again is listed with its last record. */
  lemma {:induction false} GatherLatest(f: Fragment, items: Chunk, id: string)
    requires id != ""
    ensures var last, devices := LastOf(items, id), Gather(f, items).devices;
            && (id in devices <==> id in f.devices || last != [])
            && (id in devices ==> devices[id] == if last != [] then last[0] else f.devices[id])
    decreases |items|
  {
    if items != [] {
      GatherLatest(Added(f, items[0]), items[1..], id);
    }
  }

  /** A notification without a source is passed on as it is and leaves no trace. */
  lemma NamelessIsPassed(fs: Fragments, n: Notify, now: int)
    ensures Merged(fs, "", n, now) == Complete(n.devices) && AfterMerge(fs, "", n, now) == fs
  {
  }

  // ---------- The merging node ----------

  class Merger {
    var fragments: Fragments

    constructor ()
      ensures fragments == map[]
    {
      fragments := map[];
    }

    method Expire(now: int)
      modifies this
      ensures fragments == Unexpired(old(fragments), now)
    {
      var todo := fragments.Keys;
      while todo != {}
        invariant todo <= fragments.Keys <= old(fragments).Keys
        invariant forall s :: s in fragments ==> fragments[s] == old(fragments)[s]
        invariant forall s :: s in old(fragments) && s !in todo ==>
                                (s in fragments <==> now - old(fragments)[s].updatedAt <= EXPIRY)
        decreases |todo|
      {
        var s :| s in todo;
        todo := todo - {s};
        if now - fragments[s].updatedAt > EXPIRY {
          fragments := fragments - {s};
        }
      }
      assert fragments == Unexpired(old(fragments), now);
    }

    method Merge(sourceDevice: string, n: Notify, now: int) returns (r: Outcome)
      modifies this
      ensures fragments == AfterMerge(old(fragments), Text.Trim(sourceDevice), n, now)
      ensures r == Merged(old(fragments), Text.Trim(sourceDevice), n, now)
    {
      var source := Text.Trim(sourceDevice);
      if source == "" {
        return Complete(n.devices);
      }
      Expire(now);
      if Whole(n) {
        fragments := fragments - {source};
        return Complete(n.devices);
      }
      if source !in fragments || fragments[source].total != n.total {
        fragments := fragments[source := Fragment(n.total, [], map[], now)];
      }
      var f := Collect(fragments[source].(updatedAt := now), n.devices);
      if |f.devices| < n.total {
        fragments := fragments[source := f];
        return Pending;
      }
      var merged := List(f.order, f.devices);
      fragments := fragments - {source};
      return Complete(merged);
    }

    method Collect(base: Fragment, items: Chunk) returns (f: Fragment)
      ensures f == Gather(base, items)
    {
      f := base;
      var i := 0;
      while i < |items|
        invariant 0 <= i <= |items|
        invariant Gather(f, items[i..]) == Gather(base, items)
      {
        assert items[i..][1..] == items[i + 1..];
        var id := P.IdOf(items[i]);
        ghost var was := f;
        if id != "" {
          if id !in f.devices {
            f := f.(order := f.order + [id]);
          }
          f := f.(devices := f.devices[id := items[i]]);
        }
        assert f == Added(was, items[i]);
        i := i + 1;
      }
    }

    method List(order: seq<string>, devices: map<string, Device>) returns (r: seq<Device>)
      ensures r == Listed(order, devices)
    {
      r := [];
      var i := 0;
      while i < |order|
        invariant 0 <= i <= |order|
        invariant r + Listed(order[i..], devices) == Listed(order, devices)
      {
        assert order[i..][1..] == order[i + 1..];
        ghost var was, later := r, Listed(order[i + 1..], devices);
        if order[i] in devices {
          r := r + [devices[order[i]]];
          assert was + ([devices[order[i]]] + later) == r + later;
        }
        i := i + 1;
      }
    }
  }

  // ---------- What a fragment holds ----------

  /** The identifiers of the devices in a list, blank ones aside. */
  function IdSet(items: Chunk): set<string> {
    (set d | d in items :: P.IdOf(d)) - {""}
  }

  /** The order lists every collected identifier once, and every record stands under its own identifier. */
  ghost predicate Sound(f: Fragment) {
    && Seqs.Distinct(f.order) && (forall id :: id in f.order <==> id in f.devices)
    && (forall id :: id in f.devices ==> id != "" && P.IdOf(f.devices[id]) == id)
  }

  lemma AddedFacts(f: Fragment, item: Device)
    requires Sound(f)
    ensures Sound(Added(f, item))
    ensures Added(f, item).devices.Keys == f.devices.Keys + IdSet([item])
  {
    var id := P.IdOf(item);
    AddedOrder(f, item);
    assert IdSet([item]) == {id} - {""};
  }

  lemma AddedOrder(f: Fragment, item: Device)
    requires Sound(f)
    ensures Seqs.Distinct(Added(f, item).order)
    ensures forall id :: id in Added(f, item).order <==> id in Added(f, item).devices
  {
    if P.IdOf(item) !in f.order {
      Seqs.DistinctAppend(f.order, P.IdOf(item));
    }
  }

  lemma IdSetHead(items: Chunk)
    requires items != []
    ensures IdSet(items) == IdSet([items[0]]) + IdSet(items[1..])
  {
    assert items == [items[0]] + items[1..];
  }

  lemma {:induction false} GatherFacts(f: Fragment, items: Chunk)
    requires Sound(f)
    ensures Sound(Gather(f, items)) && Gather(f, items).total == f.total && Gather(f, items).updatedAt == f.updatedAt
    ensures Gather(f, items).devices.Keys == f.devices.Keys + IdSet(items)
    decreases |items|
  {
    if items == [] {
      assert IdSet(items) == {};
    } else {
      AddedFacts(f, items[0]);
      IdSetHead(items);
      GatherFacts(Added(f, items[0]), items[1..]);
    }
  }

  /** Every collected record was in one of the notifications. */
  ghost predicate Carried(f: Fragment, pool: set<Device>) {
    forall id :: id in f.devices ==> f.devices[id] in pool
  }

  lemma {:induction false} GatherCarries(f: Fragment, items: Chunk, pool: set<Device>)
    requires Carried(f, pool) && forall d :: d in items ==> d in pool
    ensures Carried(Gather(f, items), pool)
    decreases |items|
  {
    if items != [] {
      assert items[0] in items;
      assert forall d :: d in items[1..] ==> d in items;
      GatherCarries(Added(f, items[0]), items[1..], pool);
    }
  }

  lemma {:induction false} ListedFacts(order: seq<string>, devices: map<string, Device>)
    requires forall id :: id in order ==> id in devices && P.IdOf(devices[id]) == id
    ensures P.Ids(Listed(order, devices)) == order
    ensures forall d :: d in Listed(order, devices) ==> d in devices.Values
  {
    if order != [] {
      ListedFacts(order[1..], devices);
      P.IdsAppend([devices[order[0]]], Listed(order[1..], devices));
      assert order == [order[0]] + order[1..];
    }
  }

  // ---------- A published catalog ----------

  /** The chunks of one catalog: together they carry `total` devices with distinct identifiers, none of them blank. */
  ghost predicate Published(chunks: seq<Chunk>, total: int) {
    && Seqs.Distinct(P.Ids(Seqs.Concat(chunks))) && "" !in P.Ids(Seqs.Concat(chunks))
    && total == |Seqs.Concat(chunks)|
    && (forall i :: 0 <= i < |chunks| ==> chunks[i] != [])
  }

  /** Every chunk is among the given numbers. */
  ghost predicate Full(chunks: seq<Chunk>, got: set<nat>) {
    forall i: nat :: i < |chunks| ==> i in got
  }

  /** The identifiers in the chunks with the given numbers. */
  ghost function IdsIn(chunks: seq<Chunk>, got: set<nat>): set<string> {
    set i, id | i in got && i < |chunks| && id in IdSet(chunks[i]) :: id
  }

  ghost function AllIds(chunks: seq<Chunk>): set<string> {
    Members(P.Ids(Seqs.Concat(chunks))) - {""}
  }

  function Members(ids: seq<string>): set<string> {
    set id | id in ids
  }

  lemma {:induction false} IdCount(ids: seq<string>)
    ensures |Members(ids)| <= |ids|
    ensures Seqs.Distinct(ids) ==> |Members(ids)| == |ids|
  {
    if ids != [] {
      IdCount(ids[1..]);
      assert ids == [ids[0]] + ids[1..];
      assert Members(ids) == {ids[0]} + Members(ids[1..]);
    }
  }

  lemma {:induction false} ConcatMembers(chunks: seq<Chunk>, i: nat, id: string)
    requires i < |chunks| && id in P.Ids(chunks[i])
    ensures id in P.Ids(Seqs.Concat(chunks))
  {
    P.IdsAppend(chunks[0], Seqs.Concat(chunks[1..]));
    if i > 0 {
      ConcatMembers(chunks[1..], i - 1, id);
    }
  }

  lemma {:induction false} MemberChunk(chunks: seq<Chunk>, id: string) returns (i: nat)
    requires id in P.Ids(Seqs.Concat(chunks))
    ensures i < |chunks| && id in P.Ids(chunks[i])
  {
    P.IdsAppend(chunks[0], Seqs.Concat(chunks[1..]));
    if id in P.Ids(chunks[0]) {
      i := 0;
    } else {
      i := MemberChunk(chunks[1..], id);
      i := i + 1;
    }
  }

  lemma IdsAreSet(items: Chunk, id: string)
    ensures id in IdSet(items) <==> id in P.Ids(items) && id != ""
  {
    if id in P.Ids(items) {
      var i :| 0 <= i < |items| && P.Ids(items)[i] == id;
      assert items[i] in items;
    }
    if id in IdSet(items) {
      var d :| d in items && P.IdOf(d) == id;
      var i :| 0 <= i < |items| && items[i] == d;
      assert P.Ids(items)[i] == id;
    }
  }

  lemma IdsInAll(chunks: seq<Chunk>, got: set<nat>)
    ensures IdsIn(chunks, got) <= AllIds(chunks)
    ensures Full(chunks, got) ==> IdsIn(chunks, got) == AllIds(chunks)
  {
    forall id | id in IdsIn(chunks, got)
      ensures id in AllIds(chunks)
    {
      var i :| i in got && i < |chunks| && id in IdSet(chunks[i]);
      IdsAreSet(chunks[i], id);
      ConcatMembers(chunks, i, id);
    }
    if Full(chunks, got) {
      forall id | id in AllIds(chunks)
        ensures id in IdsIn(chunks, got)
      {
        var i := MemberChunk(chunks, id);
        IdsAreSet(chunks[i], id);
      }
    }
  }

  lemma IdsInOne(chunks: seq<Chunk>, got: set<nat>, i: nat)
    requires i < |chunks|
    ensures IdsIn(chunks, got + {i}) == IdsIn(chunks, got) + IdSet(chunks[i])
  {
  }

  lemma {:induction false} DistinctParts(a: seq<string>, b: seq<string>, id: string)
    requires Seqs.Distinct(a + b)
    ensures Seqs.Distinct(b) && (id in a ==> id !in b)
  {
    if a == [] {
      assert a + b == b;
    } else {
      assert (a + b)[1..] == a[1..] + b;
      DistinctParts(a[1..], b, id);
    }
  }

  lemma {:induction false} ChunksDisjoint(chunks: seq<Chunk>, i: nat, j: nat, id: string)
    requires Seqs.Distinct(P.Ids(Seqs.Concat(chunks))) && i < j < |chunks| && id in P.Ids(chunks[i])
    ensures id !in P.Ids(chunks[j])
  {
    var later := Seqs.Concat(chunks[1..]);
    P.IdsAppend(chunks[0], later);
    DistinctParts(P.Ids(chunks[0]), P.Ids(later), id);
    if i > 0 {
      ChunksDisjoint(chunks[1..], i - 1, j - 1, id);
    } else if id in P.Ids(chunks[j]) {
      ConcatMembers(chunks[1..], j - 1, id);
    }
  }

  /** No identifier occurs in two chunks. */
  ghost predicate Separate(chunks: seq<Chunk>) {
    forall i: nat, j: nat, id :: i < |chunks| && j < |chunks| && i != j && id in P.Ids(chunks[i]) ==> id !in P.Ids(chunks[j])
  }

  lemma AreSeparate(chunks: seq<Chunk>)
    requires Seqs.Distinct(P.Ids(Seqs.Concat(chunks)))
    ensures Separate(chunks)
  {
    forall i: nat, j: nat, id | i < j < |chunks| && id in P.Ids(chunks[i])
      ensures id !in P.Ids(chunks[j])
    {
      ChunksDisjoint(chunks, i, j, id);
    }
  }

  /** All announced devices are there exactly when all chunks are. */
  lemma CountDecides(chunks: seq<Chunk>, total: int, got: set<nat>)
    requires Published(chunks, total)
    ensures |AllIds(chunks)| == total
    ensures |IdsIn(chunks, got)| >= total <==> Full(chunks, got)
  {
    var ids := P.Ids(Seqs.Concat(chunks));
    IdCount(ids);
    assert AllIds(chunks) == Members(ids);
    IdsInAll(chunks, got);
    AreSeparate(chunks);
    if !Full(chunks, got) {
      var j: nat :| j < |chunks| && j !in got;
      var id := P.Ids(chunks[j])[0];
      MissingId(chunks, got, j, id);
      ConcatMembers(chunks, j, id);
      assert id in AllIds(chunks);
      SubsetCount(IdsIn(chunks, got), AllIds(chunks) - {id});
    }
  }

  lemma {:induction false} SubsetCount(a: set<string>, b: set<string>)
    requires a <= b
    ensures |a| <= |b|
  {
    if a != {} {
      var x :| x in a;
      SubsetCount(a - {x}, b - {x});
    }
  }

  lemma MissingId(chunks: seq<Chunk>, got: set<nat>, j: nat, id: string)
    requires Separate(chunks) && j < |chunks| && j !in got && id in P.Ids(chunks[j])
    ensures id !in IdsIn(chunks, got)
  {
    assert forall i :: i in got && i < |chunks| ==> id !in P.Ids(chunks[i]);
    NotIn(chunks, got, id);
  }

  lemma NotIn(chunks: seq<Chunk>, got: set<nat>, id: string)
    requires forall i :: i in got && i < |chunks| ==> id !in P.Ids(chunks[i])
    ensures id !in IdsIn(chunks, got)
  {
    forall i | i in got && i < |chunks|
      ensures id !in IdSet(chunks[i])
    {
      IdsAreSet(chunks[i], id);
    }
  }

  // ---------- The protocol ----------

  /** A chunk of the catalog arrives, or any notification of another source. */
  datatype Event =
    | Arrive(i: nat, now: int)
    | Other(source: string, n: Notify, now: int)

  /** The chunks that count: those that arrived since the catalog was last complete or last lapsed. */
  datatype Progress = Progress(got: set<nat>, at: int)

  const NOTHING := Progress({}, 0)

  function Live(p: Progress, now: int): set<nat> {
    if now - p.at > 120 then {} else p.got
  }

  ghost function Advance(p: Progress, chunks: seq<Chunk>, e: Event): Progress {
    match e
    case Arrive(i, now) => Progress(if Full(chunks, Live(p, now) + {i}) then {} else Live(p, now) + {i}, now)
    case Other(_, _, now) => Progress(Live(p, now), p.at)
  }

  predicate Proper(source: string, chunks: seq<Chunk>, e: Event) {
    match e
    case Arrive(i, _) => i < |chunks|
    case Other(other, _, _) => other != source && other != ""
  }

  function Step(fs: Fragments, source: string, chunks: seq<Chunk>, total: int, e: Event): Fragments
    requires Proper(source, chunks, e)
  {
    match e
    case Arrive(i, now) => AfterMerge(fs, source, Notify(total, chunks[i]), now)
    case Other(other, n, now) => AfterMerge(fs, other, n, now)
  }

  /** The fragment of the source holds exactly the chunks that count. */
  ghost predicate Tracks(fs: Fragments, source: string, chunks: seq<Chunk>, total: int, p: Progress) {
    if p.got == {} then source in fs ==> fs[source].total != total
    else
      && source in fs && fs[source].total == total && fs[source].updatedAt == p.at
      && Sound(fs[source]) && fs[source].devices.Keys == IdsIn(chunks, p.got)
      && Carried(fs[source], set d | d in Seqs.Concat(chunks))
  }

  lemma {:induction false} ConcatHas(chunks: seq<Chunk>, i: nat, d: Device)
    requires i < |chunks| && d in chunks[i]
    ensures d in Seqs.Concat(chunks)
  {
    if i > 0 {
      ConcatHas(chunks[1..], i - 1, d);
    }
  }

  lemma LiveTracks(fs: Fragments, source: string, chunks: seq<Chunk>, total: int, p: Progress, now: int)
    requires Tracks(fs, source, chunks, total, p)
    ensures Tracks(Unexpired(fs, now), source, chunks, total, Progress(Live(p, now), p.at))
  {
  }

  lemma ArriveGathers(fs: Fragments, source: string, chunks: seq<Chunk>, total: int, p: Progress, i: nat, now: int, f: Fragment)
    requires Tracks(fs, source, chunks, total, p) && i < |chunks|
    requires f == Gathered(fs, source, Notify(total, chunks[i]), now)
    ensures f.total == total && f.updatedAt == now && Sound(f)
    ensures f.devices.Keys == IdsIn(chunks, Live(p, now) + {i})
    ensures Carried(f, set d | d in Seqs.Concat(chunks))
  {
    LiveTracks(fs, source, chunks, total, p, now);
    var live := Live(p, now);
    var base := Base(Unexpired(fs, now), source, total, now);
    assert live == {} ==> IdsIn(chunks, live) == {};
    assert base.devices.Keys == IdsIn(chunks, live);
    GatherFacts(base, chunks[i]);
    IdsInOne(chunks, live, i);
    forall d | d in chunks[i]
      ensures d in Seqs.Concat(chunks)
    {
      ConcatHas(chunks, i, d);
    }
    GatherCarries(base, chunks[i], set d | d in Seqs.Concat(chunks));
  }

  lemma OneChunkIsAll(chunks: seq<Chunk>, total: int, i: nat)
    requires Published(chunks, total) && i < |chunks|
    ensures total > 0 && (total <= |chunks[i]| <==> |chunks| == 1)
  {
    if |chunks| == 1 {
      assert Seqs.Concat(chunks) == chunks[0] + Seqs.Concat([]);
    } else {
      var j := if i == 0 then 1 else 0;
      ConcatLonger(chunks, i, j);
    }
  }

  lemma {:induction false} ConcatLonger(chunks: seq<Chunk>, i: nat, j: nat)
    requires i < |chunks| && j < |chunks| && i != j
    ensures |Seqs.Concat(chunks)| >= |chunks[i]| + |chunks[j]|
  {
    if i > 0 && j > 0 {
      ConcatLonger(chunks[1..], i - 1, j - 1);
    } else {
      ConcatLong(chunks[1..], (if i > 0 then i else j) - 1);
    }
  }

  lemma {:induction false} ConcatLong(chunks: seq<Chunk>, i: nat)
    requires i < |chunks|
    ensures |Seqs.Concat(chunks)| >= |chunks[i]|
  {
    if i > 0 {
      ConcatLong(chunks[1..], i - 1);
    }
  }

  /** The devices reported are those of the catalog, each identifier once. */
  ghost predicate Delivers(devices: seq<Device>, chunks: seq<Chunk>) {
    && Seqs.Distinct(P.Ids(devices))
    && (forall id :: id in P.Ids(devices) <==> id in P.Ids(Seqs.Concat(chunks)))
    && (forall d :: d in devices ==> d in Seqs.Concat(chunks))
  }

  lemma SingleChunk(fs: Fragments, source: string, chunks: seq<Chunk>, total: int, p: Progress, now: int)
    requires Published(chunks, total) && Tracks(fs, source, chunks, total, p) && source != "" && |chunks| == 1
    ensures Merged(fs, source, Notify(total, chunks[0]), now) == Complete(chunks[0]) && Delivers(chunks[0], chunks)
    ensures Full(chunks, Live(p, now) + {0})
    ensures Tracks(AfterMerge(fs, source, Notify(total, chunks[0]), now), source, chunks, total, Progress({}, now))
  {
    OneChunkIsAll(chunks, total, 0);
    assert Seqs.Concat(chunks) == chunks[0] + Seqs.Concat([]) == chunks[0];
  }

  lemma ListedDelivers(f: Fragment, chunks: seq<Chunk>, total: int)
    requires Published(chunks, total) && Sound(f) && f.devices.Keys == AllIds(chunks)
    requires Carried(f, set d | d in Seqs.Concat(chunks))
    ensures Delivers(Listed(f.order, f.devices), chunks)
  {
    ListedFacts(f.order, f.devices);
  }

  /** A chunk completes the catalog exactly when it is the last one missing. */
  lemma ArriveStep(fs: Fragments, source: string, chunks: seq<Chunk>, total: int, p: Progress, i: nat, now: int)
    requires Published(chunks, total) && Tracks(fs, source, chunks, total, p) && source != "" && i < |chunks|
    ensures Merged(fs, source, Notify(total, chunks[i]), now).Complete? <==> Full(chunks, Live(p, now) + {i})
    ensures Merged(fs, source, Notify(total, chunks[i]), now).Complete? ==>
              Delivers(Merged(fs, source, Notify(total, chunks[i]), now).devices, chunks)
    ensures Tracks(AfterMerge(fs, source, Notify(total, chunks[i]), now), source, chunks, total, Advance(p, chunks, Arrive(i, now)))
  {
    OneChunkIsAll(chunks, total, i);
    if |chunks| == 1 {
      SingleChunk(fs, source, chunks, total, p, now);
    } else {
      var f := Gathered(fs, source, Notify(total, chunks[i]), now);
      ArriveGathers(fs, source, chunks, total, p, i, now, f);
      GatheredDecides(f, chunks, total, Live(p, now) + {i});
    }
  }

  lemma GatheredDecides(f: Fragment, chunks: seq<Chunk>, total: int, got: set<nat>)
    requires Published(chunks, total) && Sound(f) && f.devices.Keys == IdsIn(chunks, got)
    requires Carried(f, set d | d in Seqs.Concat(chunks))
    ensures |f.devices| >= total <==> Full(chunks, got)
    ensures Full(chunks, got) ==> Delivers(Listed(f.order, f.devices), chunks)
  {
    CountDecides(chunks, total, got);
    assert |f.devices| == |f.devices.Keys|;
    IdsInAll(chunks, got);
    if Full(chunks, got) {
      ListedDelivers(f, chunks, total);
    }
  }

  lemma OtherStep(fs: Fragments, source: string, chunks: seq<Chunk>, total: int, p: Progress, other: string, n: Notify, now: int)
    requires Tracks(fs, source, chunks, total, p) && other != source && other != ""
    ensures Tracks(AfterMerge(fs, other, n, now), source, chunks, total, Advance(p, chunks, Other(other, n, now)))
  {
    LiveTracks(fs, source, chunks, total, p, now);
  }

  // ---------- Whole runs ----------

  ghost predicate AllProper(source: string, chunks: seq<Chunk>, events: seq<Event>) {
    forall k :: 0 <= k < |events| ==> Proper(source, chunks, events[k])
  }

  function After(fs: Fragments, source: string, chunks: seq<Chunk>, total: int, events: seq<Event>): Fragments
    requires AllProper(source, chunks, events)
    decreases |events|
  {
    if events == [] then fs
    else After(Step(fs, source, chunks, total, events[0]), source, chunks, total, events[1..])
  }

  ghost function ProgressAfter(p: Progress, chunks: seq<Chunk>, events: seq<Event>): Progress
    decreases |events|
  {
    if events == [] then p else ProgressAfter(Advance(p, chunks, events[0]), chunks, events[1..])
  }

  lemma {:induction false} RunTracks(fs: Fragments, source: string, chunks: seq<Chunk>, total: int, p: Progress, events: seq<Event>)
    requires Published(chunks, total) && Tracks(fs, source, chunks, total, p) && source != "" && AllProper(source, chunks, events)
    ensures Tracks(After(fs, source, chunks, total, events), source, chunks, total, ProgressAfter(p, chunks, events))
    decreases |events|
  {
    if events != [] {
      var fs' := Step(fs, source, chunks, total, events[0]);
      assert Proper(source, chunks, events[0]);
      match events[0] {
        case Arrive(i, now) => ArriveStep(fs, source, chunks, total, p, i, now);
        case Other(other, n, now) => OtherStep(fs, source, chunks, total, p, other, n, now);
      }
      RunTracks(fs', source, chunks, total, Advance(p, chunks, events[0]), events[1..]);
    }
  }

  /**
   Whatever arrived before, in whatever order and however often, and whatever other sources sent in
   between, an arriving chunk completes the catalog exactly when every other chunk has arrived since
   the catalog was last complete or last lapsed; what is reported then is the catalog, each
   identifier once.
   */
  lemma CompletesExactly(source: string, chunks: seq<Chunk>, total: int, events: seq<Event>, i: nat, now: int)
    requires Published(chunks, total) && source != "" && AllProper(source, chunks, events) && i < |chunks|
    ensures var r := Merged(After(map[], source, chunks, total, events), source, Notify(total, chunks[i]), now);
            && (r.Complete? <==> Full(chunks, Live(ProgressAfter(NOTHING, chunks, events), now) + {i}))
            && (r.Complete? ==> Delivers(r.devices, chunks))
  {
    RunTracks(map[], source, chunks, total, NOTHING, events);
    ArriveStep(After(map[], source, chunks, total, events), source, chunks, total, ProgressAfter(NOTHING, chunks, events), i, now);
  }

  // ---------- A catalog that lost a device ----------

  ghost predicate Within(fs: Fragments, source: string, total: int, ids: set<string>) {
    source in fs && fs[source].total == total ==> Sound(fs[source]) && fs[source].devices.Keys <= ids
  }

  /** The chunks carry fewer different devices than announced. */
  ghost predicate Short(chunks: seq<Chunk>, total: int) {
    |AllIds(chunks)| < total && forall i :: 0 <= i < |chunks| ==> |chunks[i]| < total
  }

  lemma ShortGathers(base: Fragment, chunks: seq<Chunk>, i: nat, f: Fragment)
    requires Sound(base) && base.devices.Keys <= AllIds(chunks) && i < |chunks| && f == Gather(base, chunks[i])
    ensures Sound(f) && f.devices.Keys <= AllIds(chunks) && f.total == base.total && |f.devices| <= |AllIds(chunks)|
  {
    GatherFacts(base, chunks[i]);
    IdsInOne(chunks, {}, i);
    IdsInAll(chunks, {} + {i});
    SubsetCount(f.devices.Keys, AllIds(chunks));
    assert |f.devices| == |f.devices.Keys|;
  }

  lemma ShortStep(fs: Fragments, source: string, chunks: seq<Chunk>, total: int, i: nat, now: int)
    requires Short(chunks, total) && Within(fs, source, total, AllIds(chunks)) && source != "" && i < |chunks|
    ensures Merged(fs, source, Notify(total, chunks[i]), now).Pending?
    ensures Within(AfterMerge(fs, source, Notify(total, chunks[i]), now), source, total, AllIds(chunks))
  {
    var base := Base(Unexpired(fs, now), source, total, now);
    assert Sound(base) && base.devices.Keys <= AllIds(chunks);
    ShortGathers(base, chunks, i, Gathered(fs, source, Notify(total, chunks[i]), now));
  }

  lemma {:induction false} ShortRun(fs: Fragments, source: string, chunks: seq<Chunk>, total: int, events: seq<Event>)
    requires Short(chunks, total) && Within(fs, source, total, AllIds(chunks)) && source != "" && AllProper(source, chunks, events)
    ensures Within(After(fs, source, chunks, total, events), source, total, AllIds(chunks))
    decreases |events|
  {
    if events != [] {
      assert Proper(source, chunks, events[0]);
      if events[0].Arrive? {
        ShortStep(fs, source, chunks, total, events[0].i, events[0].now);
      }
      ShortRun(Step(fs, source, chunks, total, events[0]), source, chunks, total, events[1..]);
    }
  }

  /** Then no arrival ever completes the catalog. */
  lemma NeverCompletes(source: string, chunks: seq<Chunk>, total: int, events: seq<Event>, i: nat, now: int)
    requires Short(chunks, total) && source != "" && AllProper(source, chunks, events) && i < |chunks|
    ensures Merged(After(map[], source, chunks, total, events), source, Notify(total, chunks[i]), now).Pending?
  {
    ShortRun(map[], source, chunks, total, events);
    ShortStep(After(map[], source, chunks, total, events), source, chunks, total, i, now);
  }

  // ---------- From planning to merging ----------

  lemma {:induction false} SendableLength(size: P.Sizing, limit: int, devices: seq<Device>)
    ensures |P.Sendable(size, limit, devices)| <= |devices|
    ensures |P.Sendable(size, limit, devices)| == |devices| ==> P.Sendable(size, limit, devices) == devices
  {
    if devices != [] {
      SendableLength(size, limit, devices[1..]);
      assert devices == [devices[0]] + devices[1..];
    }
  }

  /** When no device is too large, the planned messages form a catalog that the other side can complete. */
  lemma PlanIsPublished(size: P.Sizing, limit: int, devices: seq<Device>)
    requires P.Monotone(size) && devices != [] && P.Sendable(size, limit, devices) == devices
    requires Seqs.Distinct(P.Ids(devices)) && "" !in P.Ids(devices)
    ensures Published(P.Planned(size, limit, true, devices), |devices|)
  {
    P.IdsInOrder(size, limit, devices);
    P.ChunksFit(size, limit, devices);
    var chunks := P.Planned(size, limit, true, devices);
    assert |Seqs.Concat(chunks)| == |P.Ids(Seqs.Concat(chunks))| == |devices|;
    assert forall i :: 0 <= i < |chunks| ==> chunks[i] in chunks;
  }

  /** When one is, the other side waits in vain: the dropped device is still announced. */
  lemma LossyPlanIsShort(size: P.Sizing, limit: int, devices: seq<Device>)
    requires P.Monotone(size) && P.Sendable(size, limit, devices) != devices
    ensures Short(P.Planned(size, limit, true, devices), |devices|)
  {
    P.IdsInOrder(size, limit, devices);
    SendableLength(size, limit, devices);
    var chunks := P.Planned(size, limit, true, devices);
    var ids := P.Ids(Seqs.Concat(chunks));
    assert |ids| < |devices|;
    IdCount(ids);
    SubsetCount(AllIds(chunks), Members(ids));
    forall i | 0 <= i < |chunks|
      ensures |chunks[i]| < |devices|
    {
      ConcatLong(chunks, i);
    }
  }
}
