/**
 The registry of exposed devices: an index from local ports to devices and one from devices to
 their ports, rebuilt by every synchronisation.
 */
module CatalogRegistry {
  import Text
  import Seqs

  datatype Mapping = Mapping(deviceId: string, mappingId: string, port: int)

  function DeviceOf(m: Mapping): string {
    if Text.Trim(m.deviceId) != "" then Text.Trim(m.deviceId) else Text.Trim(m.mappingId)
  }

  datatype Index = Index(ports: map<int, string>, lists: map<string, seq<int>>)

  const EMPTY := Index(map[], map[])

  function At(lists: map<string, seq<int>>, id: string): seq<int> {
    if id in lists then lists[id] else []
  }

  // ---------- Sorting ----------

  function Insert(x: int, s: seq<int>): seq<int> {
    if s == [] || x <= s[0] then [x] + s else [s[0]] + Insert(x, s[1..])
  }

  function Sort(s: seq<int>): seq<int> {
    if s == [] then [] else Insert(s[0], Sort(s[1..]))
  }

  predicate Sorted(s: seq<int>) {
    s == [] || ((forall x :: x in s[1..] ==> s[0] <= x) && Sorted(s[1..]))
  }

  /** In order and without repetition. */
  predicate Ascending(s: seq<int>) {
    s == [] || ((forall x :: x in s[1..] ==> s[0] < x) && Ascending(s[1..]))
  }

  lemma {:induction false} InsertFacts(x: int, s: seq<int>)
    requires Sorted(s)
    ensures Sorted(Insert(x, s))
    ensures forall y :: y in Insert(x, s) <==> y == x || y in s
    ensures Seqs.Distinct(Insert(x, s)) <==> x !in s && Seqs.Distinct(s)
  {
    if s == [] || x <= s[0] {
      assert ([x] + s)[1..] == s;
      assert s != [] ==> s == [s[0]] + s[1..];
    } else {
      InsertFacts(x, s[1..]);
      var rest := Insert(x, s[1..]);
      assert ([s[0]] + rest)[1..] == rest;
      assert s == [s[0]] + s[1..];
    }
  }

  lemma {:induction false} SortFacts(s: seq<int>)
    ensures Sorted(Sort(s))
    ensures forall y :: y in Sort(s) <==> y in s
    ensures Seqs.Distinct(Sort(s)) <==> Seqs.Distinct(s)
  {
    if s != [] {
      SortFacts(s[1..]);
      InsertFacts(s[0], Sort(s[1..]));
      assert s == [s[0]] + s[1..];
    }
  }

  lemma {:induction false} AscendingMeans(s: seq<int>)
    ensures Ascending(s) <==> Sorted(s) && Seqs.Distinct(s)
  {
    if s != [] {
      AscendingMeans(s[1..]);
    }
  }

  lemma {:induction false} SortedStays(s: seq<int>)
    requires Sorted(s)
    ensures Sort(s) == s
  {
    if s != [] {
      SortedStays(s[1..]);
      assert s[1..] != [] ==> s[1..][0] in s[1..];
      assert s == [s[0]] + s[1..];
    }
  }

  predicate Has(s: seq<int>, x: int) {
    x in s
  }

  /** An ascending list is determined by its members. */
  lemma {:induction false} SameMembers(a: seq<int>, b: seq<int>)
    requires Ascending(a) && Ascending(b) && forall x :: Has(a, x) <==> Has(b, x)
    ensures a == b
    decreases |a|
  {
    if a == [] || b == [] {
      assert a != [] ==> Has(a, a[0]);
      assert b != [] ==> Has(b, b[0]);
    } else {
      assert a == [a[0]] + a[1..] && b == [b[0]] + b[1..];
      assert Has(a, a[0]) && Has(b, b[0]);
      assert a[0] == b[0];
      forall x
        ensures Has(a[1..], x) <==> Has(b[1..], x)
      {
        assert Has(a, x) <==> Has(b, x);
      }
      SameMembers(a[1..], b[1..]);
    }
  }

  // ---------- Bindings of a list of mappings ----------

  function PortMap(items: seq<Mapping>): map<int, string> {
    if items == [] then map[]
    else var m := items[|items| - 1]; PortMap(items[..|items| - 1])[m.port := DeviceOf(m)]
  }

  function PortLists(items: seq<Mapping>): map<string, seq<int>> {
    if items == [] then map[]
    else
      var m := items[|items| - 1];
      var lists := PortLists(items[..|items| - 1]);
      lists[DeviceOf(m) := At(lists, DeviceOf(m)) + [m.port]]
  }

  function SortAll(lists: map<string, seq<int>>): map<string, seq<int>> {
    map id | id in lists :: Sort(lists[id])
  }

  function Exposure(items: seq<Mapping>): Index {
    Index(PortMap(items), SortAll(PortLists(items)))
  }

  // ---------- Ports carried over ----------

  /** The ports of a device that are still free go to the device again. */
  function CarryPorts(e: Index, id: string, ports: seq<int>): Index
    decreases |ports|
  {
    if ports == [] then e
    else if ports[0] in e.ports then CarryPorts(e, id, ports[1..])
    else CarryPorts(Index(e.ports[ports[0] := id], e.lists[id := At(e.lists, id) + [ports[0]]]), id, ports[1..])
  }

  function Carry(e: Index, id: string, ports: seq<int>): Index {
    if At(e.lists, id) != [] then e
    else
      var e' := CarryPorts(e, id, ports);
      if |At(e'.lists, id)| > 1 then e'.(lists := e'.lists[id := Sort(e'.lists[id])]) else e'
  }

  /** Devices are visited in the given order. */
  function CarryAll(e: Index, lists: map<string, seq<int>>, order: seq<string>): Index {
    if order == [] then e
    else
      var id := order[|order| - 1];
      Carry(CarryAll(e, lists, order[..|order| - 1]), id, At(lists, id))
  }

  /** `order` visits every key once. */
  ghost predicate Visits(order: seq<string>, keys: set<string>) {
    (forall id :: id in order <==> id in keys) && Once(order)
  }

  ghost predicate Once(order: seq<string>) {
    order == [] || (order[|order| - 1] !in order[..|order| - 1] && Once(order[..|order| - 1]))
  }

  // ---------- The registry ----------

  class Registry {
    var portToDevice: map<int, string>
    var deviceToPorts: map<string, seq<int>>

    ghost function View(): Index
      reads this
    {
      Index(portToDevice, deviceToPorts)
    }

    constructor ()
      ensures View() == EMPTY
    {
      portToDevice, deviceToPorts := map[], map[];
    }

    /** Both synchronisations with mappings replace the whole index. */
    method SyncExposure(items: seq<Mapping>)
      modifies this
      ensures View() == Exposure(items)
    {
      portToDevice, deviceToPorts := Bindings(items);
    }

    method SyncRemote(exposure: seq<Mapping>)
      modifies this
      ensures exists order :: Visits(order, old(deviceToPorts).Keys) && View() == CarryAll(Exposure(exposure), old(deviceToPorts), order)
    {
      var previous := deviceToPorts;
      var ports, lists := Bindings(exposure);
      ghost var e := Index(ports, lists);
      ghost var order := [];
      var todo := previous.Keys;
      while todo != {}
        invariant todo <= previous.Keys
        invariant Visits(order, previous.Keys - todo)
        invariant Index(ports, lists) == CarryAll(e, previous, order)
        decreases |todo|
      {
        var id :| id in todo;
        todo := todo - {id};
        VisitsMore(order, previous.Keys - todo - {id}, id, previous.Keys - todo);
        CarriesOn(e, previous, order, id);
        ports, lists := CarryDevice(ports, lists, id, previous[id]);
        order := order + [id];
      }
      portToDevice, deviceToPorts := ports, lists;
      assert Visits(order, previous.Keys);
    }
  }

  lemma VisitsMore(order: seq<string>, keys: set<string>, id: string, more: set<string>)
    requires Visits(order, keys) && id !in keys && more == keys + {id}
    ensures Visits(order + [id], more)
  {
    assert (order + [id])[..|order|] == order;
  }

  lemma CarriesOn(e: Index, lists: map<string, seq<int>>, order: seq<string>, id: string)
    ensures CarryAll(e, lists, order + [id]) == Carry(CarryAll(e, lists, order), id, At(lists, id))
  {
    assert (order + [id])[..|order|] == order;
  }

  method Bindings(items: seq<Mapping>) returns (ports: map<int, string>, lists: map<string, seq<int>>)
    ensures Index(ports, lists) == Exposure(items)
  {
    ports, lists := map[], map[];
    var i := 0;
    while i < |items|
      invariant 0 <= i <= |items|
      invariant ports == PortMap(items[..i]) && lists == PortLists(items[..i])
    {
      assert items[..i + 1][..i] == items[..i];
      var id := DeviceOf(items[i]);
      ports := ports[items[i].port := id];
      lists := lists[id := At(lists, id) + [items[i].port]];
      i := i + 1;
    }
    assert items[..i] == items;
    lists := SortLists(lists);
  }

  method SortLists(unsorted: map<string, seq<int>>) returns (lists: map<string, seq<int>>)
    ensures lists == SortAll(unsorted)
  {
    lists := unsorted;
    var todo := lists.Keys;
    while todo != {}
      invariant todo <= lists.Keys == unsorted.Keys
      invariant forall id :: id in lists ==> lists[id] == if id in todo then unsorted[id] else Sort(unsorted[id])
      decreases |todo|
    {
      var id :| id in todo;
      todo := todo - {id};
      lists := lists[id := Sort(lists[id])];
    }
  }

  method CarryDevice(ports0: map<int, string>, lists0: map<string, seq<int>>, id: string, previous: seq<int>)
    returns (ports: map<int, string>, lists: map<string, seq<int>>)
    ensures Index(ports, lists) == Carry(Index(ports0, lists0), id, previous)
  {
    ports, lists := ports0, lists0;
    if |At(lists, id)| > 0 {
      return;
    }
    var i := 0;
    while i < |previous|
      invariant 0 <= i <= |previous|
      invariant CarryPorts(Index(ports, lists), id, previous[i..]) == CarryPorts(Index(ports0, lists0), id, previous)
    {
      var port := previous[i];
      assert previous[i..][1..] == previous[i + 1..];
      i := i + 1;
      if port in ports {
        continue;
      }
      ports := ports[port := id];
      lists := lists[id := At(lists, id) + [port]];
    }
    if |At(lists, id)| > 1 {
      lists := lists[id := Sort(lists[id])];
    }
  }

  // ---------- Exact inverses ----------

  predicate Holds(lists: map<string, seq<int>>, id: string, port: int) {
    id in lists && port in lists[id]
  }

  predicate Bound(ports: map<int, string>, id: string, port: int) {
    port in ports && ports[port] == id
  }

  /** Every list is ascending and not empty. */
  ghost predicate Tidy(lists: map<string, seq<int>>) {
    forall id :: id in lists ==> lists[id] != [] && Ascending(lists[id])
  }

  /** The two indexes are inverse to each other. */
  ghost predicate Inverse(x: Index) {
    Tidy(x.lists) && forall id, port :: Holds(x.lists, id, port) <==> Bound(x.ports, id, port)
  }

  /** The device index is determined by the port index. */
  lemma Canonical(a: Index, b: Index)
    requires Inverse(a) && Inverse(b) && a.ports == b.ports
    ensures a == b
  {
    forall id
      ensures id in a.lists <==> id in b.lists
      ensures id in a.lists && id in b.lists ==> a.lists[id] == b.lists[id]
    {
      if id in a.lists {
        SameHolders(a, b, id);
      }
      if id in b.lists {
        SameHolders(b, a, id);
      }
      if id in a.lists && id in b.lists {
        forall port
          ensures Has(a.lists[id], port) <==> Has(b.lists[id], port)
        {
          assert Holds(a.lists, id, port) <==> Holds(b.lists, id, port);
        }
        SameMembers(a.lists[id], b.lists[id]);
      }
    }
  }

  lemma SameHolders(a: Index, b: Index, id: string)
    requires Inverse(a) && Inverse(b) && a.ports == b.ports && id in a.lists
    ensures id in b.lists
  {
    var port := a.lists[id][0];
    assert Holds(a.lists, id, port);
    assert Bound(b.ports, id, port);
    assert Holds(b.lists, id, port);
  }

  // ---------- Mappings with distinct ports, and only those, give inverse indexes ----------

  predicate DistinctPorts(items: seq<Mapping>) {
    items == [] ||
    ((forall m :: m in items[..|items| - 1] ==> m.port != items[|items| - 1].port) && DistinctPorts(items[..|items| - 1]))
  }

  lemma {:induction false} LastBinds(items: seq<Mapping>, i: nat)
    requires DistinctPorts(items) && i < |items|
    ensures items[i].port in PortMap(items) && PortMap(items)[items[i].port] == DeviceOf(items[i])
    decreases |items|
  {
    if i < |items| - 1 {
      LastBinds(items[..|items| - 1], i);
      assert items[i] in items[..|items| - 1];
    }
  }

  /** Every port leads to the device identifier of its mapping, or to the mapping's own identifier where there is none. */
  lemma PortIsBound(items: seq<Mapping>, i: nat)
    requires DistinctPorts(items) && i < |items|
    ensures var m, ports := items[i], Exposure(items).ports;
            m.port in ports && ports[m.port] == Text.Trim(if Text.Trim(m.deviceId) == "" then m.mappingId else m.deviceId)
  {
    LastBinds(items, i);
  }

  lemma {:induction false} ListsGrow(items: seq<Mapping>, m: Mapping)
    requires m in items
    ensures Holds(PortLists(items), DeviceOf(m), m.port)
  {
    var n := |items| - 1;
    assert items == items[..n] + [items[n]];
    if m in items[..n] {
      ListsGrow(items[..n], m);
    }
  }

  lemma {:induction false} ListsAreBound(items: seq<Mapping>, id: string, port: int) returns (m: Mapping)
    requires Holds(PortLists(items), id, port)
    ensures m in items && DeviceOf(m) == id && m.port == port
  {
    var n := |items| - 1;
    m := items[n];
    if DeviceOf(m) != id || m.port != port {
      m := ListsAreBound(items[..n], id, port);
      assert items == items[..n] + [items[n]];
    }
  }

  lemma {:induction false} ListsAreTidy(items: seq<Mapping>)
    requires DistinctPorts(items)
    ensures forall id :: id in PortLists(items) ==> PortLists(items)[id] != [] && Seqs.Distinct(PortLists(items)[id])
  {
    if items != [] {
      var n := |items| - 1;
      var init, d := items[..n], DeviceOf(items[n]);
      ListsAreTidy(init);
      if Holds(PortLists(init), d, items[n].port) {
        var m := ListsAreBound(init, d, items[n].port);
      }
      UniqueAppend(At(PortLists(init), d), items[n].port);
    }
  }

  lemma {:induction false} UniqueAppend(s: seq<int>, x: int)
    ensures Seqs.Distinct(s + [x]) <==> Seqs.Distinct(s) && x !in s
  {
    if s != [] {
      UniqueAppend(s[1..], x);
      assert (s + [x])[1..] == s[1..] + [x];
      assert s == [s[0]] + s[1..];
    }
  }

  lemma {:induction false} PortsAreBound(items: seq<Mapping>, id: string, port: int)
    requires DistinctPorts(items)
    ensures Holds(PortLists(items), id, port) <==> Bound(PortMap(items), id, port)
  {
    if items != [] {
      var n := |items| - 1;
      PortsAreBound(items[..n], id, port);
      if Holds(PortLists(items[..n]), id, port) {
        var m := ListsAreBound(items[..n], id, port);
      }
    }
  }

  lemma ExposureIsInverse(items: seq<Mapping>)
    requires DistinctPorts(items)
    ensures Inverse(Exposure(items))
  {
    var x, lists := Exposure(items), PortLists(items);
    ListsAreTidy(items);
    forall id | id in lists
      ensures x.lists[id] != [] && Ascending(x.lists[id])
    {
      SortFacts(lists[id]);
      AscendingMeans(Sort(lists[id]));
      assert lists[id][0] in Sort(lists[id]);
    }
    forall id, port
      ensures Holds(x.lists, id, port) <==> Bound(x.ports, id, port)
    {
      PortsAreBound(items, id, port);
      SortFacts(At(lists, id));
    }
  }

  lemma {:induction false} StillRepeated(items: seq<Mapping>) returns (id: string, other: string, port: int)
    requires !DistinctPorts(items)
    ensures Holds(PortLists(items), id, port) && Holds(PortLists(items), other, port)
    ensures id == other ==> !Seqs.Distinct(PortLists(items)[id])
  {
    var n := |items| - 1;
    var init, last := items[..n], items[n];
    if DistinctPorts(init) {
      var m :| m in init && m.port == last.port;
      ListsGrow(init, m);
      id, other, port := DeviceOf(m), DeviceOf(last), last.port;
    } else {
      id, other, port := StillRepeated(init);
    }
    UniqueAppend(At(PortLists(init), DeviceOf(last)), last.port);
  }

  /** The indexes of a list of mappings are inverse exactly when no port occurs twice. */
  lemma InverseIffDistinct(items: seq<Mapping>)
    ensures Inverse(Exposure(items)) <==> DistinctPorts(items)
  {
    if DistinctPorts(items) {
      ExposureIsInverse(items);
    } else {
      var id, other, port := StillRepeated(items);
      var x, lists := Exposure(items), PortLists(items);
      SortFacts(lists[id]);
      SortFacts(lists[other]);
      AscendingMeans(x.lists[id]);
      assert Holds(x.lists, id, port) && Holds(x.lists, other, port);
    }
  }

  // ---------- Carrying over does not depend on the order of devices ----------

  function Free(ports: seq<int>, taken: map<int, string>): seq<int> {
    if ports == [] then []
    else if ports[0] in taken then Free(ports[1..], taken)
    else [ports[0]] + Free(ports[1..], taken)
  }

  lemma {:induction false} FreeFacts(ports: seq<int>, taken: map<int, string>)
    requires Ascending(ports)
    ensures forall p :: p in Free(ports, taken) <==> p in ports && p !in taken
    ensures Ascending(Free(ports, taken))
  {
    if ports != [] {
      FreeFacts(ports[1..], taken);
      assert ports == [ports[0]] + ports[1..];
      var rest := Free(ports[1..], taken);
      assert ([ports[0]] + rest)[1..] == rest;
    }
  }

  lemma {:induction false} FreeSame(ports: seq<int>, a: map<int, string>, b: map<int, string>)
    requires forall p :: Has(ports, p) ==> (p in a <==> p in b)
    ensures Free(ports, a) == Free(ports, b)
  {
    if ports != [] {
      assert Has(ports, ports[0]) && forall p :: Has(ports[1..], p) ==> Has(ports, p);
      FreeSame(ports[1..], a, b);
    }
  }

  function FreePorts(ports: seq<int>, taken: map<int, string>, id: string): map<int, string> {
    map p | p in ports && p !in taken :: id
  }

  function WithPorts(lists: map<string, seq<int>>, id: string, more: seq<int>): map<string, seq<int>> {
    if more == [] then lists else lists[id := At(lists, id) + more]
  }

  lemma FreeHead(e: map<int, string>, id: string, ports: seq<int>)
    requires Ascending(ports) && ports != [] && ports[0] !in e
    ensures Free(ports[1..], e[ports[0] := id]) == Free(ports[1..], e)
    ensures e[ports[0] := id] + FreePorts(ports[1..], e[ports[0] := id], id) == e + FreePorts(ports, e, id)
  {
    var p, rest := ports[0], ports[1..];
    assert ports == [p] + rest;
    forall q | Has(rest, q)
      ensures q in e <==> q in e[p := id]
    {
      assert p < q;
    }
    FreeSame(rest, e[p := id], e);
  }

  lemma WithPortsTwice(lists: map<string, seq<int>>, id: string, p: int, more: seq<int>)
    ensures WithPorts(lists[id := At(lists, id) + [p]], id, more) == WithPorts(lists, id, [p] + more)
  {
    assert (At(lists, id) + [p]) + more == At(lists, id) + ([p] + more);
    if more == [] {
      assert [p] + more == [p];
    }
  }

  lemma {:induction false} CarryPortsFacts(e: Index, id: string, ports: seq<int>)
    requires Ascending(ports)
    ensures CarryPorts(e, id, ports).ports == e.ports + FreePorts(ports, e.ports, id)
    ensures CarryPorts(e, id, ports).lists == WithPorts(e.lists, id, Free(ports, e.ports))
    decreases |ports|
  {
    if ports != [] {
      var p, rest := ports[0], ports[1..];
      if p in e.ports {
        CarryPortsFacts(e, id, rest);
        assert ports == [p] + rest;
        assert FreePorts(ports, e.ports, id) == FreePorts(rest, e.ports, id);
      } else {
        var e' := Index(e.ports[p := id], e.lists[id := At(e.lists, id) + [p]]);
        CarryPortsFacts(e', id, rest);
        FreeHead(e.ports, id, ports);
        WithPortsTwice(e.lists, id, p, Free(rest, e.ports));
      }
    } else {
      assert FreePorts(ports, e.ports, id) == map[];
    }
  }

  /** What is carried over from `prev` for the devices in `done`: the ports that are free, of devices without newly exposed ports. */
  function KeptPorts(e: Index, prev: Index, done: set<string>): map<int, string> {
    map p | p in prev.ports && prev.ports[p] in done && prev.ports[p] !in e.lists && p !in e.ports :: prev.ports[p]
  }

  function KeptLists(e: Index, prev: Index, done: set<string>): map<string, seq<int>> {
    map id | id in prev.lists && id in done && id !in e.lists && Free(prev.lists[id], e.ports) != [] :: Free(prev.lists[id], e.ports)
  }

  function CarriedOver(e: Index, prev: Index, done: set<string>): Index {
    Index(e.ports + KeptPorts(e, prev, done), e.lists + KeptLists(e, prev, done))
  }

  lemma SkipStep(e: Index, prev: Index, done: set<string>, id: string)
    requires id in e.lists
    ensures CarriedOver(e, prev, done + {id}) == CarriedOver(e, prev, done)
  {
    assert KeptPorts(e, prev, done + {id}) == KeptPorts(e, prev, done);
    assert KeptLists(e, prev, done + {id}) == KeptLists(e, prev, done);
  }

  lemma SortsAway(lists: map<string, seq<int>>, id: string, ports: seq<int>, taken: map<int, string>)
    requires Ascending(ports) && At(lists, id) == []
    ensures var more := WithPorts(lists, id, Free(ports, taken));
            |At(more, id)| > 1 ==> more[id := Sort(more[id])] == more
  {
    var free := Free(ports, taken);
    FreeFacts(ports, taken);
    AscendingMeans(free);
    SortedStays(free);
    assert [] + free == free;
  }

  lemma CarrySorted(cur: Index, id: string, ports: seq<int>)
    requires Ascending(ports) && At(cur.lists, id) == []
    ensures Carry(cur, id, ports) == Index(cur.ports + FreePorts(ports, cur.ports, id), WithPorts(cur.lists, id, Free(ports, cur.ports)))
  {
    CarryPortsFacts(cur, id, ports);
    SortsAway(cur.lists, id, ports, cur.ports);
  }

  /** A port of the device is taken now exactly when it is newly exposed: other devices carried over other ports. */
  lemma OnlyOwnPorts(e: Index, prev: Index, done: set<string>, id: string)
    requires Inverse(prev) && id in prev.lists && id !in done
    ensures forall p :: Has(prev.lists[id], p) ==> (p in CarriedOver(e, prev, done).ports <==> p in e.ports)
  {
    forall p | Has(prev.lists[id], p)
      ensures p in CarriedOver(e, prev, done).ports <==> p in e.ports
    {
      assert Holds(prev.lists, id, p);
    }
  }

  lemma CarryStep(e: Index, prev: Index, done: set<string>, id: string)
    requires Inverse(prev) && Tidy(e.lists) && id in prev.lists && id !in done && id !in e.lists
    ensures Carry(CarriedOver(e, prev, done), id, prev.lists[id]) == CarriedOver(e, prev, done + {id})
  {
    var cur, ports := CarriedOver(e, prev, done), prev.lists[id];
    CarrySorted(cur, id, ports);
    OnlyOwnPorts(e, prev, done, id);
    FreeSame(ports, cur.ports, e.ports);
    StepPorts(e, prev, done, id, cur.ports);
    StepLists(e, prev, done, id, cur.lists);
  }

  lemma StepPorts(e: Index, prev: Index, done: set<string>, id: string, now: map<int, string>)
    requires Inverse(prev) && id in prev.lists && id !in done && id !in e.lists && now == CarriedOver(e, prev, done).ports
    requires forall p :: Has(prev.lists[id], p) ==> (p in now <==> p in e.ports)
    ensures now + FreePorts(prev.lists[id], now, id) == CarriedOver(e, prev, done + {id}).ports
  {
    var free := FreePorts(prev.lists[id], now, id);
    forall p
      ensures p in free <==> Bound(prev.ports, id, p) && p !in e.ports
    {
      assert Holds(prev.lists, id, p) <==> Bound(prev.ports, id, p);
      assert Has(prev.lists[id], p) <==> Holds(prev.lists, id, p);
    }
    MorePorts(e, prev, done, id, free);
  }

  lemma MorePorts(e: Index, prev: Index, done: set<string>, id: string, free: map<int, string>)
    requires id !in done && id !in e.lists
    requires forall p :: p in free <==> Bound(prev.ports, id, p) && p !in e.ports
    requires forall p :: p in free ==> free[p] == id
    ensures (e.ports + KeptPorts(e, prev, done)) + free == e.ports + KeptPorts(e, prev, done + {id})
  {
    var left, right := KeptPorts(e, prev, done) + free, KeptPorts(e, prev, done + {id});
    forall p
      ensures p in left <==> p in right
      ensures p in left && p in right ==> left[p] == right[p]
    {
      assert p in free <==> Bound(prev.ports, id, p) && p !in e.ports;
    }
    assert left == right;
  }

  lemma StepLists(e: Index, prev: Index, done: set<string>, id: string, now: map<string, seq<int>>)
    requires id in prev.lists && id !in done && id !in e.lists && now == CarriedOver(e, prev, done).lists
    ensures WithPorts(now, id, Free(prev.lists[id], e.ports)) == CarriedOver(e, prev, done + {id}).lists
  {
    assert At(now, id) == [];
    var free := Free(prev.lists[id], e.ports);
    assert [] + free == free;
    MoreLists(e, prev, done, id, free);
    AddLater(e.lists, KeptLists(e, prev, done), id, free);
  }

  lemma AddLater(a: map<string, seq<int>>, b: map<string, seq<int>>, id: string, ports: seq<int>)
    ensures (a + b)[id := ports] == a + b[id := ports]
  {
  }

  lemma MoreLists(e: Index, prev: Index, done: set<string>, id: string, free: seq<int>)
    requires id in prev.lists && id !in done && id !in e.lists && free == Free(prev.lists[id], e.ports)
    ensures free == [] ==> KeptLists(e, prev, done + {id}) == KeptLists(e, prev, done)
    ensures free != [] ==> KeptLists(e, prev, done + {id}) == KeptLists(e, prev, done)[id := free]
  {
  }

  lemma {:induction false} PrefixCarries(e: Index, prev: Index, order: seq<string>, done: set<string>)
    requires Inverse(prev) && Tidy(e.lists) && Once(order)
    requires done <= prev.lists.Keys && forall id :: id in order <==> id in done
    ensures CarryAll(e, prev.lists, order) == CarriedOver(e, prev, done)
  {
    if order == [] {
      assert done == {};
      assert KeptPorts(e, prev, done) == map[] && KeptLists(e, prev, done) == map[];
    } else {
      var n := |order| - 1;
      var id, less := order[n], done - {order[n]};
      assert order == order[..n] + [id];
      PrefixCarries(e, prev, order[..n], less);
      assert less + {id} == done;
      if id in e.lists {
        SkipStep(e, prev, less, id);
      } else {
        CarryStep(e, prev, less, id);
      }
    }
  }

  /** In whatever order the devices are visited, the same ports are carried over. */
  lemma AnyOrder(e: Index, prev: Index, order: seq<string>)
    requires Inverse(prev) && Tidy(e.lists) && Visits(order, prev.lists.Keys)
    ensures CarryAll(e, prev.lists, order) == CarriedOver(e, prev, prev.lists.Keys)
  {
    PrefixCarries(e, prev, order, prev.lists.Keys);
  }

  /** A newly exposed port keeps its device, a newly exposed device its list; a previous port stays exactly when it is free and its device has no new one. */
  lemma NothingIsDisplaced(e: Index, prev: Index, order: seq<string>, port: int, id: string)
    requires Inverse(prev) && Inverse(e) && Visits(order, prev.lists.Keys)
    ensures var x := CarryAll(e, prev.lists, order);
            && (port in e.ports ==> Bound(x.ports, e.ports[port], port))
            && (id in e.lists ==> id in x.lists && x.lists[id] == e.lists[id])
            && (port !in e.ports ==> (Bound(x.ports, id, port) <==> Bound(prev.ports, id, port) && id !in e.lists))
  {
    AnyOrder(e, prev, order);
    assert Bound(prev.ports, id, port) ==> Holds(prev.lists, id, port);
  }

  lemma CarryIsInverse(e: Index, prev: Index)
    requires Inverse(prev) && Inverse(e)
    ensures Inverse(CarriedOver(e, prev, prev.lists.Keys))
  {
    var x := CarriedOver(e, prev, prev.lists.Keys);
    forall id | id in x.lists
      ensures x.lists[id] != [] && Ascending(x.lists[id])
    {
      if id !in e.lists {
        FreeFacts(prev.lists[id], e.ports);
      }
    }
    forall id, port
      ensures Holds(x.lists, id, port) <==> Bound(x.ports, id, port)
    {
      CarriedIsBound(e, prev, id, port);
    }
  }

  lemma CarriedIsBound(e: Index, prev: Index, id: string, port: int)
    requires Inverse(prev) && Inverse(e)
    ensures Holds(CarriedOver(e, prev, prev.lists.Keys).lists, id, port) <==> Bound(CarriedOver(e, prev, prev.lists.Keys).ports, id, port)
  {
    assert Holds(e.lists, id, port) <==> Bound(e.ports, id, port);
    assert Holds(prev.lists, id, port) <==> Bound(prev.ports, id, port);
    if id in prev.lists {
      FreeFacts(prev.lists[id], e.ports);
    }
    if port in e.ports {
      assert Bound(e.ports, e.ports[port], port);
      assert Holds(e.lists, e.ports[port], port);
    }
  }

  // ---------- Whole runs ----------

  datatype Sync =
    | Expose(items: seq<Mapping>)
    | Remote(items: seq<Mapping>, order: seq<string>)

  ghost predicate May(x: Index, sync: Sync) {
    DistinctPorts(sync.items) && (sync.Remote? ==> Visits(sync.order, x.lists.Keys))
  }

  function After(x: Index, sync: Sync): Index {
    if sync.Expose? then Exposure(sync.items) else CarryAll(Exposure(sync.items), x.lists, sync.order)
  }

  ghost predicate Runs(x: Index, syncs: seq<Sync>, x': Index)
    decreases |syncs|
  {
    if syncs == [] then x == x' else May(x, syncs[0]) && Runs(After(x, syncs[0]), syncs[1..], x')
  }

  lemma {:induction false} RunKeepsInverse(x: Index, syncs: seq<Sync>, x': Index)
    requires Inverse(x) && Runs(x, syncs, x')
    ensures Inverse(x')
    decreases |syncs|
  {
    if syncs != [] {
      var e := Exposure(syncs[0].items);
      ExposureIsInverse(syncs[0].items);
      if syncs[0].Remote? {
        AnyOrder(e, x, syncs[0].order);
        CarryIsInverse(e, x);
      }
      RunKeepsInverse(After(x, syncs[0]), syncs[1..], x');
    }
  }

  /** After any synchronisations with distinct ports the two indexes are inverse to each other. */
  lemma IndexesAreInverse(syncs: seq<Sync>, x: Index)
    requires Runs(EMPTY, syncs, x)
    ensures Inverse(x)
  {
    RunKeepsInverse(EMPTY, syncs, x);
  }
}
