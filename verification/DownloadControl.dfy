/**
 The bandwidth controller for generic downloads: every segment of a download takes a lease and gives
 it back; the controller counts segments and transfers, shares the total bitrate among transfers and
 slows targets that fail.
 */
module DownloadControl {
  import Text
  import Seqs

  // ---------- State ----------

  /** A point in time that may not have been set; the unset one lies before every clock reading. */
  datatype Until = Never | At(time: int)

  predicate Before(now: int, until: Until) {
    until.At? && now < until.time
  }

  predicate After(now: int, until: Until) {
    until.Never? || now > until.time
  }

  datatype Key = Key(device: string, target: string, transfer: string)

  function KeyOf(device: string, target: string, transfer: string): Key {
    var own := Text.Trim(transfer);
    Key(Text.Lower(Text.Trim(device)), Text.Lower(Text.Trim(target)),
        Text.Lower(if own != "" then own else Text.Trim(target)))
  }

  /**
   Leases count together exactly if device, target and transfer are the same but for letter case and
   surrounding spaces; a transfer without a name goes by its target.
   */
  lemma NamesDecide(device: string, target: string, transfer: string, device': string, target': string, transfer': string)
    ensures var own, own' := Text.Trim(if Text.Trim(transfer) == "" then target else transfer),
                             Text.Trim(if Text.Trim(transfer') == "" then target' else transfer');
            KeyOf(device, target, transfer) == KeyOf(device', target', transfer') <==>
              && Text.SameText(Text.Trim(device), Text.Trim(device')) && Text.SameText(Text.Trim(target), Text.Trim(target'))
              && Text.SameText(own, own')
  {
    Text.LowerIs(Text.Trim(device), Text.Trim(device'));
    Text.LowerIs(Text.Trim(target), Text.Trim(target'));
    Text.LowerIs(Text.Trim(if Text.Trim(transfer) == "" then target else transfer), Text.Trim(if Text.Trim(transfer') == "" then target' else transfer'));
  }

  /** Results of a target are kept under a key with no device. */
  function TargetKey(target: string): Key {
    Key("", target, target)
  }

  datatype Entry = Entry(segments: nat, failures: nat, breaker: Until, hits: nat, constrained: Until)

  const IDLE := Entry(0, 0, Never, 0, Never)

  datatype State = State(transfers: nat, deviceTransfers: map<string, nat>,
                         segments: nat, deviceSegments: map<string, nat>,
                         entries: map<Key, Entry>, lastPrune: Until)

  const INITIAL := State(0, map[], 0, map[], map[], Never)

  datatype Tuning = Tuning(bitrate: int, total: int, min: int, split: bool,
                           threshold: int, openFor: int, watchSource: bool)

  /** How a segment or a request ended; the error text decides whether a failure is benign or severe. */
  datatype Outcome = Success | Failure(benign: bool, severe: bool)

  datatype Lease = Lease(key: Key, transfers: nat, deviceTransfers: nat, segments: nat, deviceSegments: nat,
                         transferSegments: nat, transferRate: int, rate: int, breakerOpen: bool,
                         floorApplied: bool, sourceConstrained: bool, splitApplied: bool)

  const PRUNE_INTERVAL := 60_000
  const CONSTRAINT_HOLD := 45_000
  const OPEN_RATIO_PCT := 85
  const RECOVER_FLOOR := 4 * 1024 * 1024

  function Count(m: map<string, nat>, device: string): nat {
    if device in m then m[device] else 0
  }

  function Up(m: map<string, nat>, device: string): map<string, nat> {
    if device == "" then m else m[device := Count(m, device) + 1]
  }

  function Down(m: map<string, nat>, device: string): map<string, nat> {
    if device != "" && Count(m, device) > 0 then m[device := Count(m, device) - 1] else m
  }

  // ---------- The rates of a lease ----------

  function Share(t: Tuning, n: nat): int {
    if t.total > 0 && n > 0 && 0 < t.total / n < t.bitrate then t.total / n else t.bitrate
  }

  predicate FloorApplies(t: Tuning, n: nat) {
    t.min > 0 && (t.total <= 0 || t.total >= t.min * n) && Share(t, n) < t.min
  }

  function Halved(rate: int): int {
    if rate > 0 && 0 < rate / 2 then rate / 2 else rate
  }

  function FullRate(t: Tuning, n: nat): int {
    if FloorApplies(t, n) then t.min else Share(t, n)
  }

  function TransferRate(t: Tuning, n: nat, breakerOpen: bool): int {
    if breakerOpen then Halved(FullRate(t, n)) else FullRate(t, n)
  }

  predicate SplitApplies(t: Tuning, transferRate: int, segments: nat) {
    t.split && segments > 1 && transferRate > 0 && transferRate / segments > 0
  }

  function SegmentRate(t: Tuning, transferRate: int, segments: nat): int {
    if SplitApplies(t, transferRate, segments) then transferRate / segments else transferRate
  }

  // ---------- Upkeep of the entries ----------

  predicate Keeps(e: Entry, now: int) {
    e.segments > 0 || Before(now, e.breaker) || Before(now, e.constrained)
  }

  predicate PruneDue(st: State, now: int) {
    st.lastPrune.Never? || now - st.lastPrune.time >= PRUNE_INTERVAL
  }

  function Kept(entries: map<Key, Entry>, now: int): map<Key, Entry> {
    map k | k in entries && Keeps(entries[k], now) :: entries[k]
  }

  function Pruned(st: State, now: int): State {
    if PruneDue(st, now) then st.(entries := Kept(st.entries, now), lastPrune := At(now)) else st
  }

  function DeleteIfIdle(st: State, key: Key, later: int): State {
    if key in st.entries && !Keeps(st.entries[key], later) && st.entries[key].failures == 0
    then st.(entries := st.entries - {key}) else st
  }

  function Put(st: State, key: Key, e: Entry): State {
    st.(entries := st.entries[key := e])
  }

  function EntryAt(st: State, key: Key): Entry {
    if key in st.entries then st.entries[key] else IDLE
  }

  function Ensured(st: State, key: Key): State {
    Put(st, key, EntryAt(st, key))
  }

  /** Is the breaker of the target open? An expired breaker is closed and its failures forgotten. */
  function AfterTargetBreaker(st: State, target: string, now: int, later: int): State {
    var key := TargetKey(target);
    if key !in st.entries then st
    else if st.entries[key].breaker.Never? then DeleteIfIdle(st, key, later)
    else if After(now, st.entries[key].breaker)
    then DeleteIfIdle(Put(st, key, st.entries[key].(breaker := Never, failures := 0)), key, later)
    else st
  }

  predicate TargetBreaker(st: State, target: string, now: int) {
    var key := TargetKey(target);
    key in st.entries && st.entries[key].breaker.At? && !After(now, st.entries[key].breaker)
  }

  function AfterConstrained(st: State, target: string, now: int): State {
    var key := TargetKey(target);
    if key in st.entries && st.entries[key].constrained.At? && After(now, st.entries[key].constrained)
    then Put(st, key, st.entries[key].(constrained := Never, hits := 0)) else st
  }

  predicate Constrained(st: State, target: string, now: int) {
    var key := TargetKey(target);
    key in st.entries && st.entries[key].constrained.At? && !After(now, st.entries[key].constrained)
  }

  // ---------- Operations ----------

  /** One more segment under `key`. */
  function Counted(st: State, key: Key): State {
    var first := EntryAt(st, key).segments == 0;
    st.(transfers := if first then st.transfers + 1 else st.transfers,
        deviceTransfers := if first then Up(st.deviceTransfers, key.device) else st.deviceTransfers,
        segments := st.segments + 1,
        deviceSegments := Up(st.deviceSegments, key.device),
        entries := st.entries[key := EntryAt(st, key).(segments := EntryAt(st, key).segments + 1)])
  }

  function Opened(st: State, key: Key, now: int): State {
    Counted(Ensured(Pruned(st, now), key), key)
  }

  function AfterAcquire(st: State, key: Key, now: int, later: int): State {
    var s := Opened(st, key, now);
    var s' := if Before(now, EntryAt(s, key).breaker) then s else AfterTargetBreaker(s, key.target, now, later);
    AfterConstrained(s', key.target, now)
  }

  /** `s` is the state right after counting the segment. */
  function LeaseOf(s: State, t: Tuning, key: Key, now: int, later: int): Lease {
    var own := Before(now, EntryAt(s, key).breaker);
    var s' := if own then s else AfterTargetBreaker(s, key.target, now, later);
    var breakerOpen := own || TargetBreaker(s, key.target, now);
    var transferRate := TransferRate(t, s.transfers, breakerOpen);
    var n := EntryAt(s, key).segments;
    Lease(key, s.transfers, Count(s.deviceTransfers, key.device), s.segments, Count(s.deviceSegments, key.device), n,
          transferRate, SegmentRate(t, transferRate, n), breakerOpen, FloorApplies(t, s.transfers),
          Constrained(s', key.target, now), SplitApplies(t, transferRate, n))
  }

  /** One segment less under `key`, as far as the counters allow. */
  function Discounted(st: State, key: Key): State {
    var s := st.(segments := if st.segments > 0 then st.segments - 1 else 0,
                 deviceSegments := Down(st.deviceSegments, key.device));
    if key !in st.entries then s
    else
      var e := st.entries[key];
      var left := if e.segments > 0 then e.segments - 1 else 0;
      s.(transfers := if left == 0 && st.transfers > 0 then st.transfers - 1 else st.transfers,
         deviceTransfers := if left == 0 then Down(st.deviceTransfers, key.device) else st.deviceTransfers,
         entries := st.entries[key := e.(segments := left)])
  }

  function Threshold(t: Tuning, severe: bool): int {
    if severe || t.threshold <= 0 then 1 else t.threshold
  }

  /** What the outcome of a segment does to the entry of its transfer. */
  function AfterOutcome(st: State, t: Tuning, key: Key, outcome: Outcome, now: int, later: int): State
    requires key in st.entries
  {
    var e := st.entries[key];
    if outcome.Success? then
      DeleteIfIdle(if e.segments == 0 && e.failures > 0 then Put(st, key, e.(failures := 0, breaker := Never)) else st, key, later)
    else if e.failures + 1 >= Threshold(t, outcome.severe)
    then Put(st, key, e.(failures := e.failures + 1, breaker := At(now + t.openFor)))
    else if e.segments == 0 then st.(entries := st.entries - {key})
    else Put(st, key, e.(failures := e.failures + 1))
  }

  function AfterRelease(st: State, t: Tuning, key: Key, outcome: Outcome, now: int, later: int): State {
    var s := Discounted(Pruned(st, now), key);
    if key in s.entries then AfterOutcome(s, t, key, outcome, now, later) else s
  }

  function AfterTargetResult(st: State, t: Tuning, target: string, outcome: Outcome, now: int, later: int): State {
    if target == "" then st
    else
      var key := TargetKey(target);
      var s := Ensured(Pruned(st, now), key);
      var e := EntryAt(s, key);
      if outcome.Success? || outcome.benign then
        DeleteIfIdle(if e.failures > 0 then Put(s, key, e.(failures := 0, breaker := Never)) else s, key, later)
      else
        var opens := e.failures + 1 >= Threshold(t, outcome.severe);
        Put(s, key, e.(failures := e.failures + 1, breaker := if opens then At(now + t.openFor) else e.breaker))
  }

  /** How a measured source rate changes the source constraint of a target. */
  function Measured(e: Entry, body: int, effective: int, segments: int, now: int): Entry {
    if segments > 1 && effective > 0 && body * 100 <= effective * OPEN_RATIO_PCT
    then e.(hits := e.hits + 1, constrained := if e.hits + 1 >= 2 then At(now + CONSTRAINT_HOLD) else e.constrained)
    else if segments <= 1 && e.constrained.At? && body >= RECOVER_FLOOR then e.(constrained := Never, hits := 0)
    else if segments <= 1 then e.(hits := 0)
    else e
  }

  function AfterSourceRead(st: State, t: Tuning, target: string, body: int, effective: int, segments: int, now: int): State {
    if target == "" || body <= 0 || !t.watchSource then st
    else
      var s := Ensured(Pruned(st, now), TargetKey(target));
      Put(s, TargetKey(target), Measured(EntryAt(s, TargetKey(target)), body, effective, segments, now))
  }

  function AfterTargetQuery(st: State, target: string, now: int, later: int): State {
    if target == "" then st else AfterTargetBreaker(Pruned(st, now), target, now, later)
  }

  function AfterConstraintQuery(st: State, target: string, now: int): State {
    if target == "" then st else AfterConstrained(Pruned(st, now), target, now)
  }

  function AfterQuery(st: State, key: Key, now: int, later: int): State {
    var s := Pruned(st, now);
    if key !in s.entries then AfterTargetBreaker(s, key.target, now, later)
    else if After(now, s.entries[key].breaker)
    then AfterTargetBreaker(DeleteIfIdle(Put(s, key, s.entries[key].(breaker := Never, failures := 0)), key, later), key.target, now, later)
    else s
  }

  predicate Query(st: State, key: Key, now: int, later: int) {
    var s := Pruned(st, now);
    if key !in s.entries then TargetBreaker(s, key.target, now)
    else if After(now, s.entries[key].breaker)
    then TargetBreaker(DeleteIfIdle(Put(s, key, s.entries[key].(breaker := Never, failures := 0)), key, later), key.target, now)
    else true
  }

  // ---------- The controller ----------

  class Controller {
    const tuning: Tuning
    var transfers: nat
    var deviceTransfers: map<string, nat>
    var segments: nat
    var deviceSegments: map<string, nat>
    var entries: map<Key, Entry>
    var lastPrune: Until

    ghost function View(): State
      reads this
    {
      State(transfers, deviceTransfers, segments, deviceSegments, entries, lastPrune)
    }

    constructor (tuning: Tuning)
      ensures View() == INITIAL && this.tuning == tuning
    {
      this.tuning := tuning;
      transfers, deviceTransfers, segments, deviceSegments := 0, map[], 0, map[];
      entries, lastPrune := map[], Never;
    }

    method Prune(now: int)
      modifies this`entries, this`lastPrune
      ensures View() == Pruned(old(View()), now)
    {
      if lastPrune.At? && now - lastPrune.time < PRUNE_INTERVAL {
        return;
      }
      var todo := entries.Keys;
      while todo != {}
        invariant todo <= entries.Keys <= old(entries).Keys
        invariant forall k :: k in entries ==> entries[k] == old(entries)[k]
        invariant forall k :: k in old(entries) && k !in todo ==> (k in entries <==> Keeps(old(entries)[k], now))
        decreases |todo|
      {
        var key :| key in todo;
        todo := todo - {key};
        if !Keeps(entries[key], now) {
          entries := entries - {key};
        }
      }
      assert entries == Kept(old(entries), now);
      lastPrune := At(now);
    }

    method Ensure(key: Key)
      modifies this`entries
      ensures View() == Ensured(old(View()), key) && key in entries
    {
      if key !in entries {
        entries := entries[key := IDLE];
      }
      assert entries == old(entries)[key := EntryAt(old(View()), key)];
    }

    method DropIfIdle(key: Key, later: int)
      requires key in entries
      modifies this`entries
      ensures View() == DeleteIfIdle(old(View()), key, later)
    {
      var e := entries[key];
      if e.segments > 0 || Before(later, e.breaker) || Before(later, e.constrained) || e.failures > 0 {
        return;
      }
      entries := entries - {key};
    }

    method TargetBreakerOpen(target: string, now: int, later: int) returns (open: bool)
      modifies this`entries
      ensures View() == AfterTargetBreaker(old(View()), target, now, later)
      ensures open == TargetBreaker(old(View()), target, now)
    {
      var key := TargetKey(target);
      if key !in entries {
        return false;
      }
      if entries[key].breaker.Never? {
        DropIfIdle(key, later);
        return false;
      }
      if After(now, entries[key].breaker) {
        entries := entries[key := entries[key].(breaker := Never, failures := 0)];
        DropIfIdle(key, later);
        return false;
      }
      return true;
    }

    method SourceConstrained(target: string, now: int) returns (constrained: bool)
      modifies this`entries
      ensures View() == AfterConstrained(old(View()), target, now)
      ensures constrained == Constrained(old(View()), target, now)
    {
      var key := TargetKey(target);
      if key !in entries || entries[key].constrained.Never? {
        return false;
      }
      if After(now, entries[key].constrained) {
        entries := entries[key := entries[key].(constrained := Never, hits := 0)];
        return false;
      }
      return true;
    }

    method CountUp(key: Key)
      requires key in entries
      modifies this
      ensures View() == Counted(old(View()), key) && key in entries
    {
      if entries[key].segments == 0 {
        transfers := transfers + 1;
        if key.device != "" {
          deviceTransfers := deviceTransfers[key.device := Count(deviceTransfers, key.device) + 1];
        }
      }
      segments := segments + 1;
      if key.device != "" {
        deviceSegments := deviceSegments[key.device := Count(deviceSegments, key.device) + 1];
      }
      entries := entries[key := entries[key].(segments := entries[key].segments + 1)];
    }

    method Acquire(device: string, target: string, transfer: string, now: int, later: int) returns (lease: Lease)
      modifies this
      ensures View() == AfterAcquire(old(View()), KeyOf(device, target, transfer), now, later)
      ensures lease == LeaseOf(Opened(old(View()), KeyOf(device, target, transfer), now), tuning, KeyOf(device, target, transfer), now, later)
    {
      var key := KeyOf(device, target, transfer);
      Prune(now);
      Ensure(key);
      CountUp(key);
      var mine := entries[key].segments;
      var breakerOpen := Before(now, entries[key].breaker);
      if !breakerOpen {
        breakerOpen := TargetBreakerOpen(key.target, now, later);
      }
      var constrained := SourceConstrained(key.target, now);
      var rate, floorApplied := RateOfTransfer(breakerOpen);
      var segmentRate, splitApplied := RateOfSegment(rate, mine);
      lease := Lease(key, transfers, Count(deviceTransfers, key.device), segments, Count(deviceSegments, key.device), mine,
                     rate, segmentRate, breakerOpen, floorApplied, constrained, splitApplied);
      AcquireCounts(old(View()), key, now, later);
    }

    method RateOfTransfer(breakerOpen: bool) returns (rate: int, floorApplied: bool)
      ensures rate == TransferRate(tuning, transfers, breakerOpen)
      ensures floorApplied == FloorApplies(tuning, transfers)
    {
      rate := tuning.bitrate;
      if tuning.total > 0 && transfers > 0 {
        var share := tuning.total / transfers;
        if 0 < share < rate {
          rate := share;
        }
      }
      floorApplied := false;
      if tuning.min > 0 && (tuning.total <= 0 || tuning.total >= tuning.min * transfers) && rate < tuning.min {
        rate := tuning.min;
        floorApplied := true;
      }
      if breakerOpen && rate > 0 {
        var half := rate / 2;
        if 0 < half < rate {
          rate := half;
        }
      }
    }

    method RateOfSegment(transferRate: int, mine: nat) returns (rate: int, applied: bool)
      ensures rate == SegmentRate(tuning, transferRate, mine)
      ensures applied == SplitApplies(tuning, transferRate, mine)
    {
      rate, applied := transferRate, false;
      if tuning.split && mine > 1 && transferRate > 0 {
        var share := transferRate / mine;
        if share > 0 {
          rate, applied := share, true;
        }
      }
    }

    method CountDown(key: Key)
      modifies this
      ensures View() == Discounted(old(View()), key)
    {
      if segments > 0 {
        segments := segments - 1;
      }
      deviceSegments := Down(deviceSegments, key.device);
      if key !in entries {
        return;
      }
      var e := entries[key];
      if e.segments > 0 {
        e := e.(segments := e.segments - 1);
      }
      entries := entries[key := e];
      if e.segments == 0 {
        if transfers > 0 {
          transfers := transfers - 1;
        }
        deviceTransfers := Down(deviceTransfers, key.device);
      }
    }

    method Release(key: Key, outcome: Outcome, now: int, later: int)
      modifies this
      ensures View() == AfterRelease(old(View()), tuning, key, outcome, now, later)
    {
      Prune(now);
      CountDown(key);
      if key in entries {
        Conclude(key, outcome, now, later);
      }
    }

    method Conclude(key: Key, outcome: Outcome, now: int, later: int)
      requires key in entries
      modifies this`entries
      ensures View() == AfterOutcome(old(View()), tuning, key, outcome, now, later)
    {
      var e := entries[key];
      if outcome.Success? {
        if e.segments == 0 && e.failures > 0 {
          entries := entries[key := e.(failures := 0, breaker := Never)];
        }
        DropIfIdle(key, later);
        return;
      }
      e := e.(failures := e.failures + 1);
      entries := entries[key := e];
      if e.failures >= Threshold(tuning, outcome.severe) {
        entries := entries[key := e.(breaker := At(now + tuning.openFor))];
        return;
      }
      if e.segments == 0 {
        entries := entries - {key};
        assert entries == old(entries) - {key};
      }
    }

    method ObserveTarget(target: string, outcome: Outcome, now: int, later: int)
      modifies this
      ensures View() == AfterTargetResult(old(View()), tuning, Text.Lower(Text.Trim(target)), outcome, now, later)
    {
      var name := Text.Lower(Text.Trim(target));
      if name == "" {
        return;
      }
      var key := TargetKey(name);
      Prune(now);
      Ensure(key);
      var e := entries[key];
      if outcome.Success? || outcome.benign {
        if e.failures > 0 {
          entries := entries[key := e.(failures := 0, breaker := Never)];
        }
        DropIfIdle(key, later);
        return;
      }
      e := e.(failures := e.failures + 1);
      if e.failures >= Threshold(tuning, outcome.severe) {
        e := e.(breaker := At(now + tuning.openFor));
      }
      entries := entries[key := e];
    }

    method ObserveSource(target: string, body: int, effective: int, segmentsActive: int, now: int)
      modifies this
      ensures View() == AfterSourceRead(old(View()), tuning, Text.Lower(Text.Trim(target)), body, effective, segmentsActive, now)
    {
      var name := Text.Lower(Text.Trim(target));
      if name == "" || body <= 0 || !tuning.watchSource {
        return;
      }
      var key := TargetKey(name);
      Prune(now);
      Ensure(key);
      var e := entries[key];
      if segmentsActive > 1 && effective > 0 && body * 100 <= effective * OPEN_RATIO_PCT {
        e := e.(hits := e.hits + 1);
        if e.hits >= 2 {
          e := e.(constrained := At(now + CONSTRAINT_HOLD));
        }
      } else if segmentsActive <= 1 && e.constrained.At? && body >= RECOVER_FLOOR {
        e := e.(constrained := Never, hits := 0);
      } else if segmentsActive <= 1 && e.hits > 0 {
        e := e.(hits := 0);
      }
      entries := entries[key := e];
    }

    method BreakerOpenForTarget(target: string, now: int, later: int) returns (open: bool)
      modifies this
      ensures View() == AfterTargetQuery(old(View()), Text.Lower(Text.Trim(target)), now, later)
      ensures open == (Text.Lower(Text.Trim(target)) != "" && TargetBreaker(Pruned(old(View()), now), Text.Lower(Text.Trim(target)), now))
    {
      var name := Text.Lower(Text.Trim(target));
      if name == "" {
        return false;
      }
      Prune(now);
      open := TargetBreakerOpen(name, now, later);
    }

    method BreakerOpen(device: string, target: string, transfer: string, now: int, later: int) returns (open: bool)
      modifies this
      ensures View() == AfterQuery(old(View()), KeyOf(device, target, transfer), now, later)
      ensures open == Query(old(View()), KeyOf(device, target, transfer), now, later)
    {
      var key := KeyOf(device, target, transfer);
      Prune(now);
      if key !in entries {
        open := TargetBreakerOpen(key.target, now, later);
        return;
      }
      if After(now, entries[key].breaker) {
        entries := entries[key := entries[key].(breaker := Never, failures := 0)];
        DropIfIdle(key, later);
        open := TargetBreakerOpen(key.target, now, later);
        return;
      }
      open := true;
    }

    method SourceConstrainedForTarget(target: string, now: int) returns (constrained: bool)
      modifies this
      ensures View() == AfterConstraintQuery(old(View()), Text.Lower(Text.Trim(target)), now)
      ensures constrained == (Text.Lower(Text.Trim(target)) != "" && Constrained(Pruned(old(View()), now), Text.Lower(Text.Trim(target)), now))
    {
      var name := Text.Lower(Text.Trim(target));
      if name == "" {
        return false;
      }
      Prune(now);
      constrained := SourceConstrained(name, now);
    }
  }

  // ---------- Upkeep never touches a lease ----------

  function Held(st: State, k: Key): nat {
    EntryAt(st, k).segments
  }

  /** The two states count the same leases. */
  ghost predicate SameLeases(a: State, b: State) {
    && a.transfers == b.transfers && a.deviceTransfers == b.deviceTransfers
    && a.segments == b.segments && a.deviceSegments == b.deviceSegments
    && forall k :: Held(a, k) == Held(b, k)
  }

  lemma PruneKeepsLeases(st: State, now: int)
    ensures SameLeases(st, Pruned(st, now))
  {
  }

  lemma DeleteKeepsLeases(st: State, key: Key, later: int)
    ensures SameLeases(st, DeleteIfIdle(st, key, later))
  {
  }

  lemma PutKeepsLeases(st: State, key: Key, e: Entry)
    requires e.segments == Held(st, key)
    ensures SameLeases(st, Put(st, key, e))
  {
  }

  lemma BreakerKeepsLeases(st: State, target: string, now: int, later: int)
    ensures SameLeases(st, AfterTargetBreaker(st, target, now, later))
  {
    var key := TargetKey(target);
    if key in st.entries {
      var closed := Put(st, key, st.entries[key].(breaker := Never, failures := 0));
      PutKeepsLeases(st, key, closed.entries[key]);
      DeleteKeepsLeases(st, key, later);
      DeleteKeepsLeases(closed, key, later);
    }
  }

  lemma ConstraintKeepsLeases(st: State, target: string, now: int)
    ensures SameLeases(st, AfterConstrained(st, target, now))
  {
  }

  lemma OutcomeKeepsLeases(st: State, t: Tuning, key: Key, outcome: Outcome, now: int, later: int)
    requires key in st.entries
    ensures SameLeases(st, AfterOutcome(st, t, key, outcome, now, later))
  {
    var e := st.entries[key];
    DeleteKeepsLeases(st, key, later);
    DeleteKeepsLeases(Put(st, key, e.(failures := 0, breaker := Never)), key, later);
  }

  lemma TargetResultKeepsLeases(st: State, t: Tuning, target: string, outcome: Outcome, now: int, later: int)
    ensures SameLeases(st, AfterTargetResult(st, t, target, outcome, now, later))
  {
    PruneKeepsLeases(st, now);
    var key := TargetKey(target);
    var s := Ensured(Pruned(st, now), key);
    PutKeepsLeases(Pruned(st, now), key, EntryAt(s, key));
    var cleared := Put(s, key, EntryAt(s, key).(failures := 0, breaker := Never));
    PutKeepsLeases(s, key, cleared.entries[key]);
    DeleteKeepsLeases(s, key, later);
    DeleteKeepsLeases(cleared, key, later);
  }

  lemma SourceReadKeepsLeases(st: State, t: Tuning, target: string, body: int, effective: int, segments: int, now: int)
    ensures SameLeases(st, AfterSourceRead(st, t, target, body, effective, segments, now))
  {
    PruneKeepsLeases(st, now);
    var s := Ensured(Pruned(st, now), TargetKey(target));
    PutKeepsLeases(Pruned(st, now), TargetKey(target), EntryAt(s, TargetKey(target)));
    PutKeepsLeases(s, TargetKey(target), Measured(EntryAt(s, TargetKey(target)), body, effective, segments, now));
  }

  lemma QueryKeepsLeases(st: State, key: Key, now: int, later: int)
    ensures SameLeases(st, AfterQuery(st, key, now, later))
  {
    PruneKeepsLeases(st, now);
    var s := Pruned(st, now);
    BreakerKeepsLeases(s, key.target, now, later);
    if key in s.entries {
      var closed := Put(s, key, s.entries[key].(breaker := Never, failures := 0));
      PutKeepsLeases(s, key, closed.entries[key]);
      DeleteKeepsLeases(closed, key, later);
      BreakerKeepsLeases(DeleteIfIdle(closed, key, later), key.target, now, later);
    }
  }

  lemma OpenedCounts(st: State, key: Key, now: int)
    ensures SameLeases(Opened(st, key, now), Counted(st, key))
  {
    PruneKeepsLeases(st, now);
    CountedAlike(st, Pruned(st, now), key);
  }

  lemma CountedAlike(a: State, b: State, key: Key)
    requires SameLeases(a, b)
    ensures SameLeases(Counted(Ensured(b, key), key), Counted(a, key))
  {
    assert Held(a, key) == Held(b, key);
    forall k
      ensures Held(Counted(Ensured(b, key), key), k) == Held(Counted(a, key), k)
    {
      assert Held(a, k) == Held(b, k);
    }
  }

  lemma SettlesAlike(s: State, key: Key, now: int, later: int, own: bool)
    ensures SameLeases(AfterConstrained(if own then s else AfterTargetBreaker(s, key.target, now, later), key.target, now), s)
  {
    var s' := if own then s else AfterTargetBreaker(s, key.target, now, later);
    BreakerKeepsLeases(s, key.target, now, later);
    ConstraintKeepsLeases(s', key.target, now);
  }

  lemma AcquireCounts(st: State, key: Key, now: int, later: int)
    ensures SameLeases(AfterAcquire(st, key, now, later), Opened(st, key, now))
    ensures SameLeases(AfterAcquire(st, key, now, later), Counted(st, key))
  {
    var s := Opened(st, key, now);
    OpenedCounts(st, key, now);
    SettlesAlike(s, key, now, later, Before(now, EntryAt(s, key).breaker));
  }

  lemma ReleaseCounts(st: State, t: Tuning, key: Key, outcome: Outcome, now: int, later: int)
    requires Held(st, key) > 0
    ensures SameLeases(AfterRelease(st, t, key, outcome, now, later), Discounted(st, key))
  {
    PruneKeepsLeases(st, now);
    OutcomeKeepsLeases(Discounted(Pruned(st, now), key), t, key, outcome, now, later);
  }

  // ---------- The rates ----------

  lemma FewTransfersFit(t: Tuning, n: nat)
    requires t.total > 0 && 0 < n <= t.total
    ensures n * FullRate(t, n) <= t.total
  {
    Quotient(t.total, n);
    QuotientPositive(t.total, n);
    if !FloorApplies(t, n) && t.total / n >= t.bitrate {
      Scale(n, t.bitrate, t.total / n);
    }
  }

  lemma NoRateFits(t: Tuning, n: nat)
    requires t.total > 0 && n > 0 && t.bitrate <= 0
    ensures n * FullRate(t, n) <= t.total
  {
    if !FloorApplies(t, n) {
      Scale(n, t.bitrate, 0);
    }
  }

  lemma ManyTransfersOverflow(t: Tuning, n: nat)
    requires 0 < t.total < n && t.bitrate > 0
    ensures FullRate(t, n) == t.bitrate && n * FullRate(t, n) > t.total
  {
    QuotientZero(t.total, n);
    if t.min > 0 {
      Scale(n, 1, t.min);
    }
    Scale(n, 1, t.bitrate);
  }

  /** All active transfers at this rate stay within the total exactly when there are no more of them than bits to share. */
  lemma RateFitsExactly(t: Tuning, n: nat, breakerOpen: bool)
    requires t.total > 0 && n > 0
    ensures n * TransferRate(t, n, breakerOpen) <= t.total <==> n <= t.total || t.bitrate <= 0
  {
    var rate := TransferRate(t, n, breakerOpen);
    if n <= t.total || t.bitrate <= 0 {
      if n <= t.total {
        FewTransfersFit(t, n);
      } else {
        NoRateFits(t, n);
      }
      Scale(n, rate, FullRate(t, n));
    } else {
      ManyTransfersOverflow(t, n);
      Scale(n, 1, rate);
    }
  }

  lemma QuotientZero(total: int, n: nat)
    requires 0 < total < n
    ensures total / n == 0
  {
  }

  lemma Quotient(total: int, n: nat)
    requires total > 0 && n > 0
    ensures n * (total / n) <= total < n * (total / n) + n
  {
  }

  lemma QuotientPositive(total: int, n: nat)
    requires 0 < n <= total
    ensures total / n > 0
  {
  }

  lemma Scale(n: nat, a: int, b: int)
    requires a <= b
    ensures n * a <= n * b
  {
  }

  /** The total covers the configured minimum of n transfers. */
  predicate Covered(t: Tuning, n: nat) {
    t.min > 0 && (t.total <= 0 || n * t.min <= t.total)
  }

  /** A rate within the bitrate of which the total allows n, as long as it has a bit for each. */
  predicate Allowed(t: Tuning, n: nat, rate: int) {
    rate <= t.bitrate && (0 < n <= t.total ==> n * rate <= t.total)
  }

  lemma ShareIsLargest(t: Tuning, n: nat, rate: int)
    requires n > 0
    ensures rate <= Share(t, n) <==> Allowed(t, n, rate)
  {
    if n <= t.total {
      QuotientPositive(t.total, n);
      Quotient(t.total, n);
      if rate <= t.total / n {
        Scale(n, rate, t.total / n);
      } else {
        Scale(n, t.total / n + 1, rate);
      }
    } else if t.total > 0 {
      QuotientZero(t.total, n);
    }
  }

  /** With the breaker closed the rate is the largest one that is allowed, or the minimum where the total covers it. */
  lemma RateIsLargest(t: Tuning, n: nat, rate: int)
    requires n > 0
    ensures rate <= TransferRate(t, n, false) <==> Allowed(t, n, rate) || (Covered(t, n) && rate <= t.min)
  {
    ShareIsLargest(t, n, rate);
  }

  /** The minimum takes effect exactly where the total covers it and it exceeds the bitrate: a covered minimum never exceeds the share. */
  lemma FloorIsRare(t: Tuning, n: nat)
    requires n > 0
    ensures FloorApplies(t, n) <==> Covered(t, n) && t.min > t.bitrate
  {
    ShareIsLargest(t, n, t.min);
    if Covered(t, n) && t.total > 0 {
      Scale(t.min, 1, n);
    }
  }

  /** An open breaker halves the rate, rounding down, unless that would leave nothing. */
  lemma OpenHalves(t: Tuning, n: nat)
    ensures var r, h := TransferRate(t, n, false), TransferRate(t, n, true);
            (r >= 2 ==> 2 * h <= r < 2 * h + 2) && (r < 2 ==> h == r)
  {
  }

  /** Whenever the total covers the guaranteed minimum of every transfer, every transfer gets it, or half of it behind an open breaker. */
  lemma RateHasFloor(t: Tuning, n: nat)
    requires t.min > 0 && n > 0 && (t.total <= 0 || t.total >= t.min * n)
    ensures TransferRate(t, n, false) >= t.min
    ensures TransferRate(t, n, true) >= t.min / 2 && TransferRate(t, n, true) >= 1
  {
  }

  /** No rate is ever zero and a segment never gets more than its transfer. */
  lemma RatesArePositive(t: Tuning, n: nat, breakerOpen: bool, segments: nat)
    requires t.bitrate > 0
    ensures 0 < SegmentRate(t, TransferRate(t, n, breakerOpen), segments) <= TransferRate(t, n, breakerOpen)
  {
    var rate := TransferRate(t, n, breakerOpen);
    if SplitApplies(t, rate, segments) {
      Quotient(rate, segments);
      Scale(rate / segments, 1, segments);
    }
  }

  /**
   The segments of a transfer at this rate stay within the transfer's exactly when it is split and there
   are no more of them than bits; then no higher rate would fit, and otherwise each gets the whole rate.
   */
  lemma SplitFitsExactly(t: Tuning, rate: int, segments: nat)
    requires rate > 0 && segments > 0
    ensures segments * SegmentRate(t, rate, segments) <= rate <==> segments == 1 || (t.split && segments <= rate)
    ensures if segments == 1 || (t.split && segments <= rate) then segments * (SegmentRate(t, rate, segments) + 1) > rate
            else SegmentRate(t, rate, segments) == rate
    ensures SplitApplies(t, rate, segments) <==> t.split && 1 < segments <= rate
  {
    Quotient(rate, segments);
    if segments <= rate {
      QuotientPositive(rate, segments);
    } else {
      QuotientZero(rate, segments);
    }
    if segments > 1 && !SplitApplies(t, rate, segments) {
      Scale(rate, 2, segments);
    }
  }

  // ---------- Runs ----------

  datatype Step =
    | Acquire(id: nat, key: Key, now: int, later: int)
    | Release(id: nat, outcome: Outcome, now: int, later: int)
    | TargetResult(target: string, outcome: Outcome, now: int, later: int)
    | SourceRead(target: string, body: int, effective: int, segments: int, now: int)
    | TargetQuery(target: string, now: int, later: int)
    | ConstraintQuery(target: string, now: int)
    | BreakerQuery(key: Key, now: int, later: int)

  /** The controller beside the leases that callers hold, and their transfers in the order they started. */
  datatype Ledger = Ledger(control: State, leases: map<nat, Lease>, order: seq<Key>)

  const EMPTY := Ledger(INITIAL, map[], [])

  /** A lease is given back only by the caller holding it. */
  predicate Enabled(l: Ledger, step: Step) {
    match step
    case Acquire(id, _, _, _) => id !in l.leases
    case Release(id, _, _, _) => id in l.leases
    case _ => true
  }

  function AfterStep(st: State, t: Tuning, step: Step): State
    requires !step.Acquire? && !step.Release?
  {
    match step
    case TargetResult(target, outcome, now, later) => AfterTargetResult(st, t, target, outcome, now, later)
    case SourceRead(target, body, effective, segments, now) => AfterSourceRead(st, t, target, body, effective, segments, now)
    case TargetQuery(target, now, later) => AfterTargetQuery(st, target, now, later)
    case ConstraintQuery(target, now) => AfterConstraintQuery(st, target, now)
    case BreakerQuery(key, now, later) => AfterQuery(st, key, now, later)
  }

  function Without(order: seq<Key>, key: Key): seq<Key> {
    if order == [] then [] else if order[0] == key then order[1..] else [order[0]] + Without(order[1..], key)
  }

  ghost function HeldBy(leases: map<nat, Lease>, key: Key): set<nat> {
    set id | id in leases && leases[id].key == key
  }

  ghost function HeldOn(leases: map<nat, Lease>, device: string): set<nat> {
    set id | id in leases && leases[id].key.device == device
  }

  ghost function Active(leases: map<nat, Lease>): set<Key> {
    set id | id in leases :: leases[id].key
  }

  ghost function ActiveOn(leases: map<nat, Lease>, device: string): set<Key> {
    set key | key in Active(leases) && key.device == device
  }

  ghost function Next(l: Ledger, t: Tuning, step: Step): Ledger
    requires Enabled(l, step)
  {
    match step
    case Acquire(id, key, now, later) =>
      Ledger(AfterAcquire(l.control, key, now, later),
             l.leases[id := LeaseOf(Opened(l.control, key, now), t, key, now, later)],
             if key in Active(l.leases) then l.order else l.order + [key])
    case Release(id, outcome, now, later) =>
      var key := l.leases[id].key;
      var leases := l.leases - {id};
      Ledger(AfterRelease(l.control, t, key, outcome, now, later), leases,
             if key in Active(leases) then l.order else Without(l.order, key))
    case _ => l.(control := AfterStep(l.control, t, step))
  }

  ghost predicate Runs(l: Ledger, t: Tuning, steps: seq<Step>, l': Ledger)
    decreases |steps|
  {
    if steps == [] then l == l'
    else Enabled(l, steps[0]) && Runs(Next(l, t, steps[0]), t, steps[1..], l')
  }

  lemma {:induction false} RunsOn(l: Ledger, t: Tuning, steps: seq<Step>, l': Ledger, step: Step)
    requires Runs(l, t, steps, l') && Enabled(l', step)
    ensures Runs(l, t, steps + [step], Next(l', t, step))
    decreases |steps|
  {
    if steps == [] {
      assert steps + [step] == [step] && [step][1..] == [];
      assert Runs(Next(l, t, step), t, [], Next(l, t, step));
    } else {
      RunsOn(Next(l, t, steps[0]), t, steps[1..], l', step);
      assert (steps + [step])[1..] == steps[1..] + [step];
    }
  }

  // ---------- What every run keeps ----------

  /** The counters are exact: one per live lease, one per transfer with a live lease. */
  ghost predicate Balanced(st: State, leases: map<nat, Lease>) {
    && st.segments == |leases| && st.transfers == |Active(leases)|
    && PerTransfer(st, leases) && PerDevice(st, leases)
  }

  ghost predicate PerTransfer(st: State, leases: map<nat, Lease>) {
    forall key :: Held(st, key) == |HeldBy(leases, key)|
  }

  /** Leases without a device are counted for none. */
  ghost predicate PerDevice(st: State, leases: map<nat, Lease>) {
    && Count(st.deviceSegments, "") == 0 && Count(st.deviceTransfers, "") == 0
    && forall d :: d != "" ==>
                     && Count(st.deviceSegments, d) == |HeldOn(leases, d)|
                     && Count(st.deviceTransfers, d) == |ActiveOn(leases, d)|
  }

  /** The order lists the transfers with live leases, each once. */
  ghost predicate Ordered(l: Ledger) {
    Seqs.Distinct(l.order) && forall key :: key in l.order <==> key in Active(l.leases)
  }

  /** Every live lease was granted when at least as many transfers were active as have started up to its own. */
  ghost predicate Ranked(l: Ledger, t: Tuning) {
    forall id :: id in l.leases ==>
                   && l.leases[id].transferRate == TransferRate(t, l.leases[id].transfers, l.leases[id].breakerOpen)
                   && forall i :: 0 <= i < |l.order| && l.order[i] == l.leases[id].key ==> i < l.leases[id].transfers
  }

  ghost predicate Inv(l: Ledger, t: Tuning) {
    Balanced(l.control, l.leases) && Ordered(l) && Ranked(l, t)
  }

  lemma BalanceCarries(a: State, b: State, leases: map<nat, Lease>)
    requires Balanced(a, leases) && SameLeases(a, b)
    ensures Balanced(b, leases)
  {
    forall key
      ensures Held(b, key) == |HeldBy(leases, key)|
    {
      assert Held(a, key) == Held(b, key);
    }
  }

  lemma AddedActive(leases: map<nat, Lease>, id: nat, lease: Lease, more: map<nat, Lease>)
    requires id !in leases && more == leases[id := lease]
    ensures Active(more) == Active(leases) + {lease.key}
  {
    forall key
      ensures key in Active(more) <==> key in Active(leases) || key == lease.key
    {
      if key in Active(leases) {
        var x :| x in leases && leases[x].key == key;
        assert x in more && more[x].key == key;
      }
      assert id in more && more[id].key == lease.key;
    }
  }

  lemma AddedBy(leases: map<nat, Lease>, id: nat, lease: Lease, more: map<nat, Lease>, key: Key)
    requires id !in leases && more == leases[id := lease]
    ensures |HeldBy(more, key)| == |HeldBy(leases, key)| + if key == lease.key then 1 else 0
  {
    assert HeldBy(more, key) == if key == lease.key then HeldBy(leases, key) + {id} else HeldBy(leases, key);
  }

  lemma AddedOn(leases: map<nat, Lease>, id: nat, lease: Lease, more: map<nat, Lease>, d: string)
    requires id !in leases && more == leases[id := lease]
    ensures |HeldOn(more, d)| == |HeldOn(leases, d)| + if d == lease.key.device then 1 else 0
  {
    assert HeldOn(more, d) == if d == lease.key.device then HeldOn(leases, d) + {id} else HeldOn(leases, d);
  }

  lemma HoldersAreActive(leases: map<nat, Lease>, key: Key)
    ensures key in Active(leases) <==> |HeldBy(leases, key)| > 0
  {
    if key in Active(leases) {
      var x :| x in leases && leases[x].key == key;
      assert x in HeldBy(leases, key);
    }
    if |HeldBy(leases, key)| > 0 {
      var x :| x in HeldBy(leases, key);
    }
  }

  lemma MoreActive(leases: map<nat, Lease>, id: nat, lease: Lease, more: map<nat, Lease>)
    requires id !in leases && more == leases[id := lease]
    ensures |Active(more)| == |Active(leases)| + if |HeldBy(leases, lease.key)| == 0 then 1 else 0
  {
    AddedActive(leases, id, lease, more);
    HoldersAreActive(leases, lease.key);
    assert lease.key in Active(leases) ==> Active(more) == Active(leases);
  }

  lemma ActiveOnAdded(leases: map<nat, Lease>, lease: Lease, more: map<nat, Lease>, d: string)
    requires Active(more) == Active(leases) + {lease.key}
    ensures ActiveOn(more, d) == ActiveOn(leases, d) + if d == lease.key.device then {lease.key} else {}
  {
  }

  lemma MoreActiveOn(leases: map<nat, Lease>, id: nat, lease: Lease, more: map<nat, Lease>, d: string)
    requires id !in leases && more == leases[id := lease]
    ensures |ActiveOn(more, d)| == |ActiveOn(leases, d)| + if d == lease.key.device && |HeldBy(leases, lease.key)| == 0 then 1 else 0
  {
    AddedActive(leases, id, lease, more);
    HoldersAreActive(leases, lease.key);
    ActiveOnAdded(leases, lease, more, d);
    assert lease.key in ActiveOn(leases, d) ==> ActiveOn(more, d) == ActiveOn(leases, d);
    assert d != lease.key.device ==> ActiveOn(more, d) == ActiveOn(leases, d);
  }

  /** One segment more under `key`: exactly the counters of the transfer and of its device go up. */
  lemma Rises(st: State, key: Key, st': State, d: string)
    requires st' == Counted(st, key) && d != ""
    ensures Count(st'.deviceSegments, d) == Count(st.deviceSegments, d) + (if d == key.device then 1 else 0)
    ensures Count(st'.deviceTransfers, d)
         == Count(st.deviceTransfers, d) + (if d == key.device && Held(st, key) == 0 then 1 else 0)
  {
  }

  lemma Falls(st: State, key: Key, st': State, d: string)
    requires st' == Discounted(st, key) && d != "" && Held(st, key) > 0
    requires d == key.device ==> Count(st.deviceSegments, d) > 0
    requires d == key.device && Held(st, key) == 1 ==> Count(st.deviceTransfers, d) > 0
    ensures Count(st'.deviceSegments, d) == Count(st.deviceSegments, d) - (if d == key.device then 1 else 0)
    ensures Count(st'.deviceTransfers, d)
         == Count(st.deviceTransfers, d) - (if d == key.device && Held(st, key) == 1 then 1 else 0)
  {
  }

  lemma HeldRises(st: State, key: Key, k: Key)
    ensures Held(Counted(st, key), k) == Held(st, k) + if k == key then 1 else 0
    ensures Counted(st, key).transfers == st.transfers + if Held(st, key) == 0 then 1 else 0
  {
  }

  lemma HeldFalls(st: State, key: Key, k: Key)
    requires Held(st, key) > 0
    ensures Held(Discounted(st, key), k) == Held(st, k) - if k == key then 1 else 0
    ensures st.transfers > 0 ==> Discounted(st, key).transfers == st.transfers - if Held(st, key) == 1 then 1 else 0
  {
  }

  lemma AcquireBalancesTransfers(st: State, leases: map<nat, Lease>, id: nat, lease: Lease, more: map<nat, Lease>, key: Key)
    requires Balanced(st, leases) && id !in leases && more == leases[id := lease]
    ensures Held(Counted(st, lease.key), key) == |HeldBy(more, key)|
    ensures Counted(st, lease.key).transfers == |Active(more)|
  {
    AddedBy(leases, id, lease, more, key);
    MoreActive(leases, id, lease, more);
    HeldRises(st, lease.key, key);
    assert Held(st, key) == |HeldBy(leases, key)|;
    assert Held(st, lease.key) == |HeldBy(leases, lease.key)|;
  }

  lemma AcquireBalancesDevice(st: State, leases: map<nat, Lease>, id: nat, lease: Lease, more: map<nat, Lease>, d: string)
    requires Balanced(st, leases) && id !in leases && more == leases[id := lease] && d != ""
    ensures Count(Counted(st, lease.key).deviceSegments, d) == |HeldOn(more, d)|
    ensures Count(Counted(st, lease.key).deviceTransfers, d) == |ActiveOn(more, d)|
  {
    AddedOn(leases, id, lease, more, d);
    MoreActiveOn(leases, id, lease, more, d);
    Rises(st, lease.key, Counted(st, lease.key), d);
    assert Held(st, lease.key) == |HeldBy(leases, lease.key)|;
  }

  lemma AcquireBalances(st: State, leases: map<nat, Lease>, id: nat, lease: Lease)
    requires Balanced(st, leases) && id !in leases
    ensures Balanced(Counted(st, lease.key), leases[id := lease])
  {
    var more := leases[id := lease];
    forall key
      ensures Held(Counted(st, lease.key), key) == |HeldBy(more, key)|
    {
      AcquireBalancesTransfers(st, leases, id, lease, more, key);
    }
    AcquireBalancesTransfers(st, leases, id, lease, more, lease.key);
    forall d | d != ""
      ensures Count(Counted(st, lease.key).deviceSegments, d) == |HeldOn(more, d)|
      ensures Count(Counted(st, lease.key).deviceTransfers, d) == |ActiveOn(more, d)|
    {
      AcquireBalancesDevice(st, leases, id, lease, more, d);
    }
  }

  lemma ReleaseBalancesTransfers(st: State, leases: map<nat, Lease>, id: nat, lease: Lease, less: map<nat, Lease>, key: Key)
    requires Balanced(st, leases) && id !in less && leases == less[id := lease]
    ensures Held(Discounted(st, lease.key), key) == |HeldBy(less, key)|
    ensures Discounted(st, lease.key).transfers == |Active(less)|
  {
    AddedBy(less, id, lease, leases, key);
    AddedBy(less, id, lease, leases, lease.key);
    MoreActive(less, id, lease, leases);
    HoldersAreActive(less, lease.key);
    assert Held(st, key) == |HeldBy(leases, key)|;
    assert Held(st, lease.key) == |HeldBy(leases, lease.key)|;
    HeldFalls(st, lease.key, key);
  }

  lemma NamelessStays(st: State, key: Key)
    requires Count(st.deviceSegments, "") == 0 && Count(st.deviceTransfers, "") == 0
    ensures Count(Discounted(st, key).deviceSegments, "") == 0 && Count(Discounted(st, key).deviceTransfers, "") == 0
  {
  }

  lemma ReleaseBalancesDevice(st: State, leases: map<nat, Lease>, id: nat, lease: Lease, less: map<nat, Lease>, d: string)
    requires Balanced(st, leases) && id !in less && leases == less[id := lease] && d != ""
    ensures Count(Discounted(st, lease.key).deviceSegments, d) == |HeldOn(less, d)|
    ensures Count(Discounted(st, lease.key).deviceTransfers, d) == |ActiveOn(less, d)|
  {
    AddedOn(less, id, lease, leases, d);
    AddedBy(less, id, lease, leases, lease.key);
    MoreActiveOn(less, id, lease, leases, d);
    assert Held(st, lease.key) == |HeldBy(leases, lease.key)|;
    Falls(st, lease.key, Discounted(st, lease.key), d);
  }

  /** Giving a lease back undoes the counting of taking it. */
  lemma ReleaseBalances(st: State, leases: map<nat, Lease>, id: nat, lease: Lease)
    requires Balanced(st, leases) && id in leases && leases[id] == lease
    ensures Balanced(Discounted(st, lease.key), leases - {id})
  {
    var less := leases - {id};
    assert less[id := lease] == leases;
    NamelessStays(st, lease.key);
    forall key
      ensures Held(Discounted(st, lease.key), key) == |HeldBy(less, key)|
    {
      ReleaseBalancesTransfers(st, leases, id, lease, less, key);
    }
    ReleaseBalancesTransfers(st, leases, id, lease, less, lease.key);
    forall d | d != ""
      ensures Count(Discounted(st, lease.key).deviceSegments, d) == |HeldOn(less, d)|
      ensures Count(Discounted(st, lease.key).deviceTransfers, d) == |ActiveOn(less, d)|
    {
      ReleaseBalancesDevice(st, leases, id, lease, less, d);
    }
  }

  lemma UpkeepBalances(st: State, t: Tuning, leases: map<nat, Lease>, step: Step)
    requires Balanced(st, leases) && !step.Acquire? && !step.Release?
    ensures Balanced(AfterStep(st, t, step), leases)
  {
    UpkeepKeepsLeases(st, t, step);
    BalanceCarries(st, AfterStep(st, t, step), leases);
  }

  /** No report, query or cleanup changes what a key holds. */
  lemma UpkeepKeepsLeases(st: State, t: Tuning, step: Step)
    requires !step.Acquire? && !step.Release?
    ensures SameLeases(st, AfterStep(st, t, step))
  {
    match step
    case TargetResult(target, outcome, now, later) => TargetResultKeepsLeases(st, t, target, outcome, now, later);
    case SourceRead(target, body, effective, segments, now) => SourceReadKeepsLeases(st, t, target, body, effective, segments, now);
    case TargetQuery(target, now, later) =>
      PruneKeepsLeases(st, now);
      BreakerKeepsLeases(Pruned(st, now), target, now, later);
    case ConstraintQuery(target, now) =>
      PruneKeepsLeases(st, now);
      ConstraintKeepsLeases(Pruned(st, now), target, now);
    case BreakerQuery(key, now, later) => QueryKeepsLeases(st, key, now, later);
  }

  lemma StepBalances(l: Ledger, t: Tuning, step: Step)
    requires Balanced(l.control, l.leases) && Enabled(l, step)
    ensures Balanced(Next(l, t, step).control, Next(l, t, step).leases)
  {
    match step
    case Acquire(id, key, now, later) =>
      AcquireCounts(l.control, key, now, later);
      var lease := LeaseOf(Opened(l.control, key, now), t, key, now, later);
      AcquireBalances(l.control, l.leases, id, lease);
      BalanceCarries(Counted(l.control, key), AfterAcquire(l.control, key, now, later), l.leases[id := lease]);
    case Release(id, outcome, now, later) =>
      var key := l.leases[id].key;
      assert id in HeldBy(l.leases, key);
      ReleaseCounts(l.control, t, key, outcome, now, later);
      ReleaseBalances(l.control, l.leases, id, l.leases[id]);
      BalanceCarries(Discounted(l.control, key), AfterRelease(l.control, t, key, outcome, now, later), l.leases - {id});
    case _ => UpkeepBalances(l.control, t, l.leases, step);
  }

  // ---------- Ranks ----------

  /** Every transfer left of the others keeps its place or moves up. */
  ghost predicate MovesUp(order: seq<Key>, less: seq<Key>) {
    forall i: nat :: i < |less| ==> NotBefore(order, i, less[i])
  }

  ghost predicate NotBefore(order: seq<Key>, i: nat, key: Key) {
    i <= |order| && key in order[i..]
  }

  lemma MovesUpLater(order: seq<Key>, less: seq<Key>, order': seq<Key>, less': seq<Key>)
    requires MovesUp(order, less) && order' != [] && order'[1..] == order && less' == [order'[0]] + less
    ensures MovesUp(order', less')
  {
    forall i: nat | i < |less'|
      ensures NotBefore(order', i, less'[i])
    {
      if i == 0 {
        assert order'[0..][0] == less'[0];
      } else {
        assert NotBefore(order, i - 1, less[i - 1]);
        assert order'[i..] == order[i - 1..];
      }
    }
  }

  lemma TailMovesUp(order: seq<Key>)
    requires order != []
    ensures MovesUp(order, order[1..])
  {
    forall i: nat | i < |order[1..]|
      ensures NotBefore(order, i, order[1..][i])
    {
      assert order[i..][1] == order[1..][i];
    }
  }

  lemma {:induction false} WithoutMovesUp(order: seq<Key>, key: Key)
    ensures MovesUp(order, Without(order, key))
  {
    if order != [] && order[0] == key {
      TailMovesUp(order);
    } else if order != [] {
      WithoutMovesUp(order[1..], key);
      MovesUpLater(order[1..], Without(order[1..], key), order, Without(order, key));
    }
  }

  lemma {:induction false} WithoutFacts(order: seq<Key>, key: Key)
    requires Seqs.Distinct(order)
    ensures forall k :: k in Without(order, key) <==> k in order && k != key
    ensures Seqs.Distinct(Without(order, key))
  {
    if order != [] {
      var rest := order[1..];
      assert order == [order[0]] + rest;
      WithoutFacts(rest, key);
      assert ([order[0]] + Without(rest, key))[1..] == Without(rest, key);
    }
  }

  lemma {:induction false} DistinctCount(order: seq<Key>, members: set<Key>)
    requires Seqs.Distinct(order) && forall key :: key in order <==> key in members
    ensures |order| == |members|
  {
    if order == [] {
      assert members == {};
    } else {
      var rest := order[1..];
      assert order == [order[0]] + rest;
      DistinctCount(rest, members - {order[0]});
    }
  }

  lemma AcquireOrders(l: Ledger, t: Tuning, id: nat, key: Key, now: int, later: int, l': Ledger)
    requires Ordered(l) && id !in l.leases && l' == Next(l, t, Acquire(id, key, now, later))
    ensures Ordered(l')
  {
    AddedActive(l.leases, id, l'.leases[id], l'.leases);
    if key !in Active(l.leases) {
      Seqs.DistinctAppend(l.order, key);
    }
  }

  /** A lease records how many transfers are active, its own included. */
  lemma AcquireReports(l: Ledger, t: Tuning, id: nat, key: Key, now: int, later: int, l': Ledger)
    requires Balanced(l.control, l.leases) && Ordered(l') && id !in l.leases
    requires l' == Next(l, t, Acquire(id, key, now, later))
    ensures l'.leases[id].transfers == |l'.order|
  {
    StepBalances(l, t, Acquire(id, key, now, later));
    AcquireCounts(l.control, key, now, later);
    DistinctCount(l'.order, Active(l'.leases));
  }

  lemma AcquireRanks(l: Ledger, t: Tuning, id: nat, key: Key, now: int, later: int, l': Ledger)
    requires Inv(l, t) && id !in l.leases && l' == Next(l, t, Acquire(id, key, now, later))
    ensures Ordered(l') && Ranked(l', t)
  {
    AcquireOrders(l, t, id, key, now, later, l');
    AcquireReports(l, t, id, key, now, later, l');
    StillRanked(l, t, l'.order, id, l'.leases[id]);
  }

  lemma StillRanked(l: Ledger, t: Tuning, order: seq<Key>, id: nat, lease: Lease)
    requires Ranked(l, t) && Ordered(l) && id !in l.leases
    requires order == l.order || (|order| == |l.order| + 1 && order[..|l.order|] == l.order && order[|l.order|] !in Active(l.leases))
    requires lease.transfers == |order| && lease.transferRate == TransferRate(t, lease.transfers, lease.breakerOpen)
    ensures Ranked(Ledger(l.control, l.leases[id := lease], order), t)
  {
    assert forall i :: 0 <= i < |l.order| ==> order[i] == l.order[i];
  }

  lemma ReleaseOrders(l: Ledger, t: Tuning, id: nat, outcome: Outcome, now: int, later: int, l': Ledger)
    requires Ordered(l) && id in l.leases && l' == Next(l, t, Release(id, outcome, now, later))
    ensures Ordered(l')
  {
    assert l'.leases[id := l.leases[id]] == l.leases;
    AddedActive(l'.leases, id, l.leases[id], l.leases);
    WithoutFacts(l.order, l.leases[id].key);
  }

  lemma ReleaseRanks(l: Ledger, t: Tuning, id: nat, outcome: Outcome, now: int, later: int, l': Ledger)
    requires Inv(l, t) && id in l.leases && l' == Next(l, t, Release(id, outcome, now, later))
    ensures Ordered(l') && Ranked(l', t)
  {
    ReleaseOrders(l, t, id, outcome, now, later, l');
    WithoutMovesUp(l.order, l.leases[id].key);
    assert MovesUp(l.order, l'.order);
    RankedThrough(l, t, l'.leases, l'.order);
  }

  lemma RankedThrough(l: Ledger, t: Tuning, leases: map<nat, Lease>, order: seq<Key>)
    requires Ranked(l, t) && MovesUp(l.order, order)
    requires forall id :: id in leases ==> id in l.leases && leases[id] == l.leases[id]
    ensures Ranked(Ledger(l.control, leases, order), t)
  {
    forall id, i | id in leases && 0 <= i < |order| && order[i] == leases[id].key
      ensures i < leases[id].transfers
    {
      assert NotBefore(l.order, i, order[i]);
      var j :| 0 <= j < |l.order[i..]| && l.order[i..][j] == order[i];
      assert l.order[i + j] == l.leases[id].key;
    }
  }

  lemma {:induction false} RunKeeps(l: Ledger, t: Tuning, steps: seq<Step>, l': Ledger)
    requires Inv(l, t) && Runs(l, t, steps, l')
    ensures Inv(l', t)
    decreases |steps|
  {
    if steps != [] {
      var step := steps[0];
      var m := Next(l, t, step);
      StepBalances(l, t, step);
      match step {
        case Acquire(id, key, now, later) => AcquireRanks(l, t, id, key, now, later, m);
        case Release(id, outcome, now, later) => ReleaseRanks(l, t, id, outcome, now, later, m);
        case _ =>
      }
      RunKeeps(m, t, steps[1..], l');
    }
  }

  // ---------- What it means ----------

  lemma StartIsBalanced(t: Tuning)
    ensures Inv(EMPTY, t)
  {
    assert Active(map[]) == {};
    assert forall key :: HeldBy(map[], key) == {};
    assert forall d :: HeldOn(map[], d) == {} && ActiveOn(map[], d) == {};
  }

  /**
   After any run, a new lease reports the live leases and transfers with itself among them, overall, for its
   device and for its transfer, and which of floor and split shaped its rates.
   */
  lemma LeaseReports(t: Tuning, steps: seq<Step>, l: Ledger, id: nat, key: Key, now: int, later: int)
    requires Runs(EMPTY, t, steps, l) && id !in l.leases
    ensures var leases := Next(l, t, Acquire(id, key, now, later)).leases;
            var lease := leases[id];
            && lease.key == key && lease.transfers == |Active(leases)| > 0 && lease.segments == |leases|
            && lease.transferSegments == |HeldBy(leases, key)| > 0
            && lease.deviceTransfers == (if key.device == "" then 0 else |ActiveOn(leases, key.device)|)
            && lease.deviceSegments == (if key.device == "" then 0 else |HeldOn(leases, key.device)|)
            && lease.transferRate == TransferRate(t, lease.transfers, lease.breakerOpen)
            && lease.rate == SegmentRate(t, lease.transferRate, lease.transferSegments)
            && (lease.floorApplied <==> Covered(t, lease.transfers) && t.min > t.bitrate)
            && (lease.splitApplied <==> t.split && 1 < lease.transferSegments <= lease.transferRate)
  {
    var step := Acquire(id, key, now, later);
    var l' := Next(l, t, step);
    CountersAreExact(t, steps, l);
    StepBalances(l, t, step);
    AcquireCounts(l.control, key, now, later);
    assert id in HeldBy(l'.leases, key) && l'.leases[id].key in Active(l'.leases);
    var o := Opened(l.control, key, now);
    assert Held(o, key) == Held(l'.control, key) == |HeldBy(l'.leases, key)|;
    FloorIsRare(t, o.transfers);
    SplitIs(t, l'.leases[id].transferRate, Held(o, key));
  }

  lemma SplitIs(t: Tuning, rate: int, segments: nat)
    requires segments > 0
    ensures SplitApplies(t, rate, segments) <==> t.split && 1 < segments <= rate
  {
    if rate > 0 {
      SplitFitsExactly(t, rate, segments);
    }
  }

  /** In every reachable state the counters equal the live leases and the transfers that have one, overall, per device and per transfer. */
  lemma CountersAreExact(t: Tuning, steps: seq<Step>, l: Ledger)
    requires Runs(EMPTY, t, steps, l)
    ensures Balanced(l.control, l.leases)
  {
    StartIsBalanced(t);
    RunKeeps(EMPTY, t, steps, l);
  }

  /** The entry of a transfer with a live lease is never removed. */
  lemma LiveTransfersStay(t: Tuning, steps: seq<Step>, l: Ledger, id: nat)
    requires Runs(EMPTY, t, steps, l) && id in l.leases
    ensures l.leases[id].key in l.control.entries && l.control.entries[l.leases[id].key].segments > 0
  {
    CountersAreExact(t, steps, l);
    assert id in HeldBy(l.leases, l.leases[id].key);
    assert Held(l.control, l.leases[id].key) > 0;
  }

  /** Once every lease has been given back, every counter is zero. */
  lemma AllReleasedIsZero(t: Tuning, steps: seq<Step>, l: Ledger, device: string, key: Key)
    requires Runs(EMPTY, t, steps, l) && l.leases == map[]
    ensures l.control.transfers == 0 && l.control.segments == 0
    ensures device != "" ==> Count(l.control.deviceTransfers, device) == 0 && Count(l.control.deviceSegments, device) == 0
    ensures Held(l.control, key) == 0
  {
    CountersAreExact(t, steps, l);
    assert Active(l.leases) == {} && HeldBy(l.leases, key) == {};
    assert HeldOn(l.leases, device) == {} && ActiveOn(l.leases, device) == {};
  }

  /**
   The rank bound: a live lease of the transfer that is the (i + 1)-th oldest of those still running
   holds a rate that i + 1 transfers could use at once, whatever was acquired and released since.
   */
  lemma RankBound(t: Tuning, steps: seq<Step>, l: Ledger, id: nat, i: nat)
    requires Runs(EMPTY, t, steps, l) && id in l.leases
    requires i < |l.order| && l.order[i] == l.leases[id].key
    requires t.total > 0 && l.leases[id].transfers <= t.total
    ensures (i + 1) * l.leases[id].transferRate <= t.total
  {
    StartIsBalanced(t);
    RunKeeps(EMPTY, t, steps, l);
    var lease := l.leases[id];
    RateFitsExactly(t, lease.transfers, lease.breakerOpen);
    FewerFit(i + 1, lease.transfers, lease.transferRate, t.total);
  }

  lemma FewerFit(m: nat, n: nat, rate: int, total: int)
    requires m <= n && n * rate <= total && total >= 0
    ensures m * rate <= total
  {
    if rate >= 0 {
      Scale(rate, m, n);
    } else {
      Scale(m, rate, 0);
    }
  }
}
