/**
 Planning of catalog notifications: over UDP a device list is cut into messages that fit one
 datagram; a device that overflows a message travels alone in a shorter form.
 */
module CatalogPlan {
  import Text
  import Seqs

  /** A catalog record; `rest` stands for the fields that the shorter forms leave out. */
  datatype Device = Device(id: string, name: string, status: string, rest: seq<string>)

  /** The size of the message for a device list, or none when it cannot be written. */
  datatype Size = Unwritable | Bytes(n: nat)

  type Sizing = seq<Device> -> Size
  type Chunk = seq<Device>

  function IdOf(d: Device): string {
    Text.Trim(d.id)
  }

  function Compact(d: Device): Device {
    Device(Text.Trim(d.id), Text.Trim(d.name), if Text.Trim(d.status) == "" then "ON" else Text.Trim(d.status), [])
  }

  function Minimal(d: Device): Device {
    Device(Text.Trim(d.id), "", "", [])
  }

  predicate Fits(size: Sizing, limit: int, list: Chunk) {
    size(list).Bytes? && size(list).n <= limit
  }

  // ---------- Specification ----------

  /** The message of a device that overflowed: its compact form, else its minimal form, else none. */
  function Alone(size: Sizing, limit: int, d: Device): (r: seq<Chunk>)
    ensures |r| <= 1
  {
    if size([Compact(d)]).Unwritable? then []
    else if Fits(size, limit, [Compact(d)]) then [[Compact(d)]]
    else if Fits(size, limit, [Minimal(d)]) then [[Minimal(d)]]
    else []
  }

  function Closed(current: Chunk): seq<Chunk> {
    if current == [] then [] else [current]
  }

  /** The messages still to come when `current` is being filled and `rest` remains. */
  function PlanFrom(size: Sizing, limit: int, current: Chunk, rest: seq<Device>): seq<Chunk>
    decreases |rest|
  {
    if rest == [] then Closed(current)
    else if Fits(size, limit, current + [rest[0]]) then PlanFrom(size, limit, current + [rest[0]], rest[1..])
    else Closed(current) + Alone(size, limit, rest[0]) + PlanFrom(size, limit, [], rest[1..])
  }

  function Planned(size: Sizing, limit: int, udp: bool, devices: seq<Device>): seq<Chunk> {
    if devices != [] && udp then PlanFrom(size, limit, [], devices)
    else if size(devices).Unwritable? then []
    else [devices]
  }

  // ---------- The planning loop ----------

  method PlanChunks(size: Sizing, limit: int, udp: bool, devices: seq<Device>) returns (chunks: seq<Chunk>)
    ensures chunks == Planned(size, limit, udp, devices)
  {
    if devices == [] || !udp {
      if size(devices).Unwritable? {
        return [];
      }
      return [devices];
    }
    chunks := [];
    var current: Chunk := [];
    var i := 0;
    while i < |devices|
      invariant 0 <= i <= |devices|
      invariant current == [] || Fits(size, limit, current)
      invariant chunks + PlanFrom(size, limit, current, devices[i..]) == PlanFrom(size, limit, [], devices)
    {
      var d := devices[i];
      ghost var before, filling := chunks, current;
      assert devices[i..][1..] == devices[i + 1..];
      i := i + 1;
      var candidate := current + [d];
      if size(candidate).Bytes? && size(candidate).n <= limit {
        current := candidate;
      } else {
        if current != [] {
          if size(current).Bytes? {
            chunks := chunks + [current];
          }
          current := [];
        }
        assert chunks == before + Closed(filling);
        var alone := PlanAlone(size, limit, d);
        chunks := chunks + alone;
        Append(before, Closed(filling), alone, PlanFrom(size, limit, [], devices[i..]));
      }
    }
    if current != [] {
      if size(current).Bytes? {
        chunks := chunks + [current];
      }
    }
  }

  method PlanAlone(size: Sizing, limit: int, d: Device) returns (r: seq<Chunk>)
    ensures r == Alone(size, limit, d)
  {
    var compact := size([Compact(d)]);
    if compact.Unwritable? {
      return [];
    }
    if compact.n > limit {
      var minimal := size([Minimal(d)]);
      if minimal.Bytes? && minimal.n <= limit {
        return [[Minimal(d)]];
      }
      return [];
    }
    return [[Compact(d)]];
  }

  lemma Append(a: seq<Chunk>, b: seq<Chunk>, c: seq<Chunk>, d: seq<Chunk>)
    ensures ((a + b) + c) + d == a + ((b + c) + d)
  {
  }

  // ---------- Every planned message fits ----------

  /** The message can be written and is no larger than the limit. */
  predicate Small(size: Sizing, limit: int, list: Chunk) {
    match size(list)
    case Bytes(n) => n <= limit
    case Unwritable => false
  }

  /** A device that overflows goes with its name and its status, ON for none; if that is too large, with its identifier only. */
  lemma ShortForms(size: Sizing, limit: int, d: Device)
    ensures var id, status := Text.Trim(d.id), Text.Trim(d.status);
            var short, shortest := Device(id, Text.Trim(d.name), if status == "" then "ON" else status, []), Device(id, "", "", []);
            Alone(size, limit, d) ==
            if Small(size, limit, [short]) then [[short]]
            else if size([short]).Bytes? && Small(size, limit, [shortest]) then [[shortest]]
            else []
  {
  }

  /** Other transports, and the empty catalog, take a single message whatever its size. */
  lemma OneMessage(size: Sizing, limit: int, udp: bool, devices: seq<Device>)
    requires devices == [] || !udp
    ensures Planned(size, limit, udp, devices) == if size(devices).Bytes? then [devices] else []
  {
  }

  lemma {:induction false} PlanSmall(size: Sizing, limit: int, current: Chunk, rest: seq<Device>)
    requires current == [] || Small(size, limit, current)
    ensures forall chunk :: chunk in PlanFrom(size, limit, current, rest) ==> chunk != [] && Small(size, limit, chunk)
    decreases |rest|
  {
    if rest != [] {
      if Small(size, limit, current + [rest[0]]) {
        PlanSmall(size, limit, current + [rest[0]], rest[1..]);
      } else {
        PlanSmall(size, limit, [], rest[1..]);
      }
    }
  }

  /** Over UDP no planned message exceeds the limit or is empty. */
  lemma ChunksFit(size: Sizing, limit: int, devices: seq<Device>)
    requires devices != []
    ensures forall chunk :: chunk in Planned(size, limit, true, devices) ==> chunk != [] && Small(size, limit, chunk)
  {
    PlanSmall(size, limit, [], devices);
  }

  // ---------- Which devices travel, and in which order ----------

  function Ids(list: seq<Device>): (r: seq<string>)
    ensures |r| == |list|
  {
    seq(|list|, i requires 0 <= i < |list| => IdOf(list[i]))
  }

  lemma IdsAppend(a: seq<Device>, b: seq<Device>)
    ensures Ids(a + b) == Ids(a) + Ids(b)
  {
  }

  /** The devices of `rest` that will be in some message. */
  function KeptFrom(size: Sizing, limit: int, current: Chunk, rest: seq<Device>): seq<Device>
    decreases |rest|
  {
    if rest == [] then []
    else if Small(size, limit, current + [rest[0]]) then [rest[0]] + KeptFrom(size, limit, current + [rest[0]], rest[1..])
    else (if Alone(size, limit, rest[0]) == [] then [] else [rest[0]]) + KeptFrom(size, limit, [], rest[1..])
  }

  lemma IdOfForms(d: Device)
    ensures IdOf(Compact(d)) == IdOf(d) && IdOf(Minimal(d)) == IdOf(d)
  {
    Text.TrimTwice(d.id);
  }

  lemma AloneIds(size: Sizing, limit: int, d: Device)
    ensures Ids(Seqs.Concat(Alone(size, limit, d))) == if Alone(size, limit, d) == [] then [] else Ids([d])
  {
    IdOfForms(d);
    var alone := Alone(size, limit, d);
    if alone != [] {
      assert Seqs.Concat(alone) == alone[0] + Seqs.Concat([]);
    }
  }

  lemma IdsOfParts(current: Chunk, alone: seq<Chunk>, later: seq<Chunk>)
    ensures Ids(Seqs.Concat(Closed(current) + alone + later)) == (Ids(current) + Ids(Seqs.Concat(alone))) + Ids(Seqs.Concat(later))
  {
    Seqs.ConcatAppend(Closed(current) + alone, later);
    Seqs.ConcatAppend(Closed(current), alone);
    ClosedConcat(current);
    IdsAppend(current + Seqs.Concat(alone), Seqs.Concat(later));
    IdsAppend(current, Seqs.Concat(alone));
  }

  lemma {:induction false} PlanIds(size: Sizing, limit: int, current: Chunk, rest: seq<Device>)
    ensures Ids(Seqs.Concat(PlanFrom(size, limit, current, rest))) == Ids(current) + Ids(KeptFrom(size, limit, current, rest))
    decreases |rest|
  {
    if rest == [] {
      ClosedConcat(current);
    } else {
      var d, tail := rest[0], rest[1..];
      if Small(size, limit, current + [d]) {
        PlanIds(size, limit, current + [d], tail);
        IdsAppend(current, [d]);
        IdsAppend([d], KeptFrom(size, limit, current + [d], tail));
        Seqs.AppendAssoc(Ids(current), Ids([d]), Ids(KeptFrom(size, limit, current + [d], tail)));
      } else {
        PlanIds(size, limit, [], tail);
        var alone, later, kept := Alone(size, limit, d), PlanFrom(size, limit, [], tail), KeptFrom(size, limit, [], tail);
        var mine := if alone == [] then [] else [d];
        AloneIds(size, limit, d);
        IdsOfParts(current, alone, later);
        IdsAppend(mine, kept);
        Seqs.AppendAssoc(Ids(current), Ids(mine), Ids(kept));
        assert Ids([]) + Ids(kept) == Ids(kept);
      }
    }
  }

  lemma ClosedConcat(current: Chunk)
    ensures Seqs.Concat(Closed(current)) == current
  {
    if current != [] {
      assert Seqs.Concat([current]) == current + Seqs.Concat([]);
    }
  }

  predicate Writable(size: Sizing, list: Chunk) {
    size(list).Bytes?
  }

  /** The minimal form of a device is no larger than its compact form. */
  predicate Shrinks(size: Sizing, d: Device) {
    size([Minimal(d)]).Bytes? && size([Compact(d)]).Bytes? && size([Minimal(d)]).n <= size([Compact(d)]).n
  }

  /** A list is no smaller than its last device alone in minimal form. */
  predicate Grows(size: Sizing, list: Chunk) {
    list != [] && size(list).Bytes? ==>
      size([Minimal(list[|list| - 1])]).Bytes? && size([Minimal(list[|list| - 1])]).n <= size(list).n
  }

  /** Sizes behave: every list can be written, and a device in minimal form takes no more room than in any other. */
  ghost predicate Monotone(size: Sizing) {
    (forall list :: Writable(size, list)) && (forall d :: Shrinks(size, d)) && (forall list :: Grows(size, list))
  }

  /** The devices whose minimal form fits a message of its own. */
  function Sendable(size: Sizing, limit: int, devices: seq<Device>): seq<Device> {
    if devices == [] then []
    else (if Small(size, limit, [Minimal(devices[0])]) then [devices[0]] else []) + Sendable(size, limit, devices[1..])
  }

  lemma SentIfSendable(size: Sizing, limit: int, current: Chunk, d: Device)
    requires Monotone(size)
    ensures Small(size, limit, current + [d]) || Alone(size, limit, d) != [] <==> Small(size, limit, [Minimal(d)])
  {
    var candidate := current + [d];
    assert candidate[|candidate| - 1] == d;
    assert Grows(size, candidate) && Shrinks(size, d);
  }

  lemma {:induction false} KeptAreSendable(size: Sizing, limit: int, current: Chunk, rest: seq<Device>)
    requires Monotone(size)
    ensures KeptFrom(size, limit, current, rest) == Sendable(size, limit, rest)
    decreases |rest|
  {
    if rest != [] {
      var candidate := current + [rest[0]];
      SentIfSendable(size, limit, current, rest[0]);
      if Small(size, limit, candidate) {
        KeptAreSendable(size, limit, candidate, rest[1..]);
      } else {
        KeptAreSendable(size, limit, [], rest[1..]);
      }
    }
  }

  /** The messages carry the identifiers of the devices in order, without exactly those whose minimal form alone is too large. */
  lemma IdsInOrder(size: Sizing, limit: int, devices: seq<Device>)
    requires Monotone(size) && devices != []
    ensures Ids(Seqs.Concat(Planned(size, limit, true, devices))) == Ids(Sendable(size, limit, devices))
  {
    PlanIds(size, limit, [], devices);
    KeptAreSendable(size, limit, [], devices);
  }

  /** Whatever the sizes, a device is lost only if it overflowed, its compact form cannot go and, when that one is merely too large, neither can its minimal form. */
  lemma {:induction false} LostOnlyIfTooLarge(size: Sizing, limit: int, current: Chunk, rest: seq<Device>, i: nat)
    requires i < |rest|
    requires Small(size, limit, [Compact(rest[i])]) || (size([Compact(rest[i])]).Bytes? && Small(size, limit, [Minimal(rest[i])]))
    ensures rest[i] in KeptFrom(size, limit, current, rest)
    decreases |rest|
  {
    if i > 0 {
      if Small(size, limit, current + [rest[0]]) {
        LostOnlyIfTooLarge(size, limit, current + [rest[0]], rest[1..], i - 1);
      } else {
        LostOnlyIfTooLarge(size, limit, [], rest[1..], i - 1);
      }
    }
  }

  // ---------- How many messages ----------

  /** Consecutive non-empty lists that each fit in full form. */
  ghost predicate Cut(size: Sizing, limit: int, parts: seq<Chunk>, devices: seq<Device>) {
    && Seqs.Concat(parts) == devices
    && forall part :: part in parts ==> part != [] && Small(size, limit, part)
  }

  /** A consecutive part of a list that fits, fits. */
  ghost predicate Hereditary(size: Sizing, limit: int) {
    forall list: Chunk, i, j :: 0 <= i < j <= |list| && Small(size, limit, list) ==> Small(size, limit, list[i..j])
  }

  /** Leaving out the first devices leaves a cut with no more parts, and with fewer when a whole part goes. */
  lemma {:induction false} CutLater(size: Sizing, limit: int, parts: seq<Chunk>, devices: seq<Device>, n: nat) returns (less: seq<Chunk>)
    requires Hereditary(size, limit) && Cut(size, limit, parts, devices) && n <= |devices|
    ensures Cut(size, limit, less, devices[n..])
    ensures |less| <= |parts| && (parts != [] && n >= |parts[0]| ==> |less| < |parts|)
    decreases |parts|
  {
    if n == 0 {
      less := parts;
      assert parts != [] ==> parts[0] in parts;
    } else {
      var first, others := parts[0], parts[1..];
      assert devices == first + Seqs.Concat(others);
      assert forall part :: part in others ==> part in parts;
      if n >= |first| {
        less := CutLater(size, limit, others, Seqs.Concat(others), n - |first|);
        assert devices[n..] == Seqs.Concat(others)[n - |first|..];
      } else {
        assert first[n..] == first[n..|first|] && first in parts;
        less := [first[n..]] + others;
        assert less[1..] == others;
        assert devices[n..] == first[n..] + Seqs.Concat(others);
      }
    }
  }

  /**
   Sending an overflowing device by itself costs at most a factor of two: no way to cut the list into
   messages that fit has fewer than half as many messages.
   */
  lemma {:induction false} AtMostTwiceTheFewest(size: Sizing, limit: int, current: Chunk, rest: seq<Device>, parts: seq<Chunk>)
    requires Hereditary(size, limit) && Cut(size, limit, parts, current + rest)
    ensures |PlanFrom(size, limit, current, rest)| <= 2 * |parts|
    decreases |rest|
  {
    var all := current + rest;
    if parts == [] {
      assert current == [] && rest == [];
    } else if rest != [] {
      var candidate := current + [rest[0]];
      if Small(size, limit, candidate) {
        assert candidate + rest[1..] == all;
        AtMostTwiceTheFewest(size, limit, candidate, rest[1..], parts);
      } else {
        if |parts[0]| > |current| {
          LongFirstPart(size, limit, current, rest, parts);
        }
        var less := CutLater(size, limit, parts, all, |current| + 1);
        assert all[|current| + 1..] == [] + rest[1..];
        AtMostTwiceTheFewest(size, limit, [], rest[1..], less);
      }
    }
  }

  lemma LongFirstPart(size: Sizing, limit: int, current: Chunk, rest: seq<Device>, parts: seq<Chunk>)
    requires Hereditary(size, limit) && Cut(size, limit, parts, current + rest) && rest != [] && parts != []
    requires |parts[0]| > |current|
    ensures Small(size, limit, current + [rest[0]])
  {
    var first := parts[0];
    var n := |current| + 1;
    assert current + rest == first + Seqs.Concat(parts[1..]);
    assert first in parts;
    assert first[0..n] == (current + rest)[..n] == current + [rest[0]];
  }
}
