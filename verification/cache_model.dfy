/**
 The cache registry: one catalog per device and one journal of changes shared by all of them.

 This is the registry as a value, with a journal that never forgets.  Module CacheRegistry
 keeps only the last JOURNAL_SIZE changes, in a ring.
 */
module CacheModel {
  import opened Words
  import opened Statuses

  const DEVICES_MAX := 48
  const RESOURCES_MAX := 256
  const NAME_MAX := 32
  const JOURNAL_SIZE := 512

  const SOURCE_DEVICE := 2
  const PRESENCE_UNAVAILABLE := 2
  const CHANGE: u8 := 1
  const PRESENCE: u8 := 2
  const LOST: u8 := 1
  const RECONFIGURED: u8 := 2
  const EXPIRED: u8 := 3

  datatype Entry = Entry(id: Bytes, value: u64, updatedMs: u64, widthBits: u8, valid: u8, source: u8)

  datatype Device = Device(subsystem: Bytes, name: Bytes, generation: u32, revision: nat,
                           capturedMs: u64, presence: u8, entries: seq<Entry>)

  datatype Change = Change(serial: nat, revision: nat, timeMs: u64, generation: u32,
                           handle: u16, kind: u8, presence: u8, entry: Entry)

  const NO_ENTRY := Entry([], 0, 0, 0, 0, 0)
  const NO_DEVICE := Device([], [], 0, 0, 0, 0, [])
  const NO_CHANGE := Change(0, 0, 0, 0, 0, 0, 0, NO_ENTRY)

  /** The registry with the whole history of its journal. */
  datatype Model = Model(devices: seq<Device>, generation: u32, log: seq<Change>)

  predicate NameChar(c: u8) {
    || 'a' as int <= c <= 'z' as int
    || 'A' as int <= c <= 'Z' as int
    || '0' as int <= c <= '9' as int
    || c == '_' as int || c == '-' as int || c == '.' as int
  }

  predicate NameValid(s: Bytes) {
    0 < |s| < NAME_MAX && forall i :: 0 <= i < |s| ==> NameChar(s[i])
  }

  predicate Fits(value: nat, widthBits: nat) {
    widthBits < 64 ==> value < Pow2(widthBits)
  }

  function Normalized(e: Entry): Entry {
    if e.valid == 0 then e.(value := 0, source := 0, updatedMs := 0) else e.(valid := 1)
  }

  /** What `describe` may report about one resource. */
  predicate Describable(e: Entry) {
    && NameValid(e.id)
    && 1 <= e.widthBits <= 64
    && e.source <= SOURCE_DEVICE
    && (e.valid != 0 ==> Fits(e.value, e.widthBits))
  }

  ghost predicate DistinctIds(entries: seq<Entry>) {
    forall i, j :: 0 <= i < j < |entries| ==> entries[i].id != entries[j].id
  }

  /** An entry as the registry stores it and as a client accepts it. */
  predicate NormalEntry(e: Entry) {
    && Describable(e)
    && e.valid <= 1
    && (e.valid == 0 ==> e.value == 0 && e.source == 0 && e.updatedMs == 0)
  }

  ghost predicate NormalCatalog(entries: seq<Entry>) {
    && |entries| <= RESOURCES_MAX
    && (forall i :: 0 <= i < |entries| ==> NormalEntry(entries[i]))
    && DistinctIds(entries)
  }

  ghost predicate NormalDevice(d: Device) {
    && NameValid(d.subsystem) && NameValid(d.name)
    && d.presence <= PRESENCE_UNAVAILABLE
    && NormalCatalog(d.entries)
  }

  ghost predicate NormalChange(c: Change) {
    && 1 <= c.handle <= DEVICES_MAX
    && c.generation != 0
    && c.revision > 0
    && c.presence <= PRESENCE_UNAVAILABLE
    && (c.kind == CHANGE || c.kind == PRESENCE)
    && (c.kind == CHANGE ==> NormalEntry(c.entry))
  }

  predicate Live(m: Model, handle: u16) {
    1 <= handle <= DEVICES_MAX && handle <= |m.devices| && m.devices[handle - 1].generation != 0
  }

  predicate SameTarget(d: Device, subsystem: Bytes, name: Bytes) {
    d.generation != 0 && d.subsystem == subsystem && d.name == name
  }

  /** What holds of the registry between any two calls. */
  ghost predicate WellFormed(m: Model) {
    && |m.devices| == DEVICES_MAX
    && (forall i :: 0 <= i < DEVICES_MAX && m.devices[i].generation != 0 ==>
          NormalDevice(m.devices[i]) && m.devices[i].revision <= |m.log|)
    && (forall i, j :: 0 <= i < j < DEVICES_MAX && m.devices[j].generation != 0 ==>
          !SameTarget(m.devices[i], m.devices[j].subsystem, m.devices[j].name))
    && (forall i :: 0 <= i < |m.log| ==> NormalChange(m.log[i]) && m.log[i].revision <= |m.log|)
  }

  /** Generations and snapshot tokens skip zero, which marks a free slot or no token. */
  function NextNonZero(g: u32): (r: u32)
    ensures r != 0
  {
    if (g + 1) % 0x1_0000_0000 == 0 then 1 else (g + 1) % 0x1_0000_0000
  }

  function FirstFree(devices: seq<Device>): (i: nat)
    ensures i <= |devices|
    ensures i < |devices| ==> devices[i].generation == 0
    ensures forall j :: 0 <= j < i ==> devices[j].generation != 0
  {
    if devices == [] || devices[0].generation == 0 then 0 else 1 + FirstFree(devices[1..])
  }

  function FirstTarget(devices: seq<Device>, subsystem: Bytes, name: Bytes): (i: nat)
    ensures i <= |devices|
    ensures i < |devices| ==> SameTarget(devices[i], subsystem, name)
    ensures forall j :: 0 <= j < i ==> !SameTarget(devices[j], subsystem, name)
  {
    if devices == [] || SameTarget(devices[0], subsystem, name) then 0
    else 1 + FirstTarget(devices[1..], subsystem, name)
  }

  ghost predicate Clash(m: Model, handle: u16, subsystem: Bytes, name: Bytes) {
    exists i :: 0 <= i < |m.devices| && i + 1 != handle && SameTarget(m.devices[i], subsystem, name)
  }

  ghost predicate CatalogValid(described: seq<Entry>) {
    (forall i :: 0 <= i < |described| ==> Describable(described[i])) && DistinctIds(described)
  }

  function NormalizedAll(described: seq<Entry>): (r: seq<Entry>)
    ensures |r| == |described|
    ensures forall i :: 0 <= i < |r| ==> r[i] == Normalized(described[i])
  {
    if described == [] then []
    else [Normalized(described[0])] + NormalizedAll(described[1..])
  }

  datatype DefineResult = DefineResult(status: Status, model: Model, handle: u16)

  ghost function Define(m: Model, handle: u16, subsystem: Bytes, name: Bytes, presence: nat,
                        described: seq<Entry>): DefineResult
    requires |m.devices| == DEVICES_MAX
  {
    if !NameValid(subsystem) || !NameValid(name) || |described| > RESOURCES_MAX ||
       presence > PRESENCE_UNAVAILABLE then
      DefineResult(Malformed, m, handle)
    else if handle != 0 && !Live(m, handle) then
      DefineResult(NotFound, m, handle)
    else if Clash(m, handle, subsystem, name) then
      DefineResult(Denied, m, handle)
    else
      var slot := if handle != 0 then handle - 1 else FirstFree(m.devices);
      if slot == DEVICES_MAX then DefineResult(Busy, m, handle)
      else if !CatalogValid(described) then DefineResult(Malformed, m, handle)
      else
        var g := NextNonZero(m.generation);
        var d := Device(subsystem, name, g, 0, 0, presence, NormalizedAll(described));
        DefineResult(Ok, m.(devices := m.devices[slot := d], generation := g), slot + 1)
  }

  /** One more revision of `d`, which takes over the slot of `handle`, and its journal entry. */
  function Appended(m: Model, handle: u16, d: Device, kind: u8, entry: Entry, now: u64): Model
    requires 1 <= handle <= |m.devices|
  {
    var change := Change(|m.log| + 1, d.revision + 1, now, d.generation, handle, kind, d.presence, entry);
    m.(devices := m.devices[handle - 1 := d.(revision := d.revision + 1)], log := m.log + [change])
  }

  function Put(m: Model, handle: u16, index: nat, value: u64, valid: int, source: nat,
               updatedMs: u64, now: u64): (Status, Model)
  {
    if !Live(m, handle) then (NotFound, m)
    else
      var d := m.devices[handle - 1];
      if index >= |d.entries| || source > SOURCE_DEVICE ||
         (valid != 0 && !Fits(value, d.entries[index].widthBits)) then (Range, m)
      else if valid == 0 && d.entries[index].valid == 0 then (Ok, m)
      else
        var e := Normalized(d.entries[index].(value := value, valid := if valid != 0 then 1 else 0,
                                              source := source, updatedMs := updatedMs));
        (Ok, Appended(m, handle, d.(entries := d.entries[index := e]), CHANGE, e, now))
  }

  function SetPresence(m: Model, handle: u16, presence: nat, now: u64): (Status, Model) {
    if !Live(m, handle) then (NotFound, m)
    else if presence > PRESENCE_UNAVAILABLE then (Range, m)
    else
      var d := m.devices[handle - 1];
      if d.presence == presence then (Ok, m)
      else (Ok, Appended(m, handle, d.(presence := presence), PRESENCE, NO_ENTRY, now))
  }

  datatype Capture = Capture(device: Device, handle: u16, cursor: nat)

  function Snapshot(m: Model, subsystem: Bytes, name: Bytes, now: u64): Option<Capture>
    requires |m.devices| == DEVICES_MAX
  {
    var i := FirstTarget(m.devices, subsystem, name);
    if i == |m.devices| then None
    else Some(Capture(m.devices[i].(capturedMs := now), i + 1, |m.log|))
  }

  datatype NextResult =
    | Resync(reason: u8)
    | CaughtUp
    | Delivered(change: Change, cursor: nat)

  /** The first change of `handle` at or after `cursor` in the whole history. */
  function NextIn(log: seq<Change>, handle: u16, cursor: nat): (r: NextResult)
    requires cursor <= |log|
    ensures r.CaughtUp? || r.Delivered?
    ensures r.Delivered? ==> cursor < r.cursor <= |log| && r.change == log[r.cursor - 1] && r.change.handle == handle
    ensures forall i :: cursor <= i < (if r.Delivered? then r.cursor - 1 else |log|) ==> log[i].handle != handle
    decreases |log| - cursor
  {
    if cursor == |log| then CaughtUp
    else if log[cursor].handle == handle then Delivered(log[cursor], cursor + 1)
    else NextIn(log, handle, cursor + 1)
  }

  function Next(m: Model, handle: u16, generation: u32, cursor: nat): NextResult {
    if !Live(m, handle) || m.devices[handle - 1].generation != generation then Resync(RECONFIGURED)
    else if cursor > |m.log| || |m.log| - cursor > JOURNAL_SIZE then Resync(LOST)
    else NextIn(m.log, handle, cursor)
  }

  // ----- What every operation keeps

  lemma NormalizedIsNormal(e: Entry)
    requires Describable(e)
    ensures NormalEntry(Normalized(e))
  {
  }

  lemma DefineKeepsWellFormed(m: Model, handle: u16, subsystem: Bytes, name: Bytes, presence: nat,
                              described: seq<Entry>)
    requires WellFormed(m)
    ensures WellFormed(Define(m, handle, subsystem, name, presence, described).model)
  {
    var r := Define(m, handle, subsystem, name, presence, described);
    if r.status == Ok {
      var slot := r.handle - 1;
      var d := r.model.devices[slot];
      assert NormalDevice(d);
      forall i, j | 0 <= i < j < DEVICES_MAX && r.model.devices[j].generation != 0
        ensures !SameTarget(r.model.devices[i], r.model.devices[j].subsystem, r.model.devices[j].name)
      {
        if j == slot {
          assert !SameTarget(m.devices[i], subsystem, name);
        } else if i == slot {
          assert !SameTarget(m.devices[j], subsystem, name);
        }
      }
    }
  }

  lemma AppendedKeepsWellFormed(m: Model, handle: u16, d: Device, kind: u8, entry: Entry, now: u64)
    requires WellFormed(m) && Live(m, handle)
    requires NormalDevice(d) && d.generation == m.devices[handle - 1].generation
    requires d.revision == m.devices[handle - 1].revision
    requires d.subsystem == m.devices[handle - 1].subsystem && d.name == m.devices[handle - 1].name
    requires (kind == CHANGE && NormalEntry(entry)) || kind == PRESENCE
    ensures WellFormed(Appended(m, handle, d, kind, entry, now))
  {
  }

  lemma PutKeepsWellFormed(m: Model, handle: u16, index: nat, value: u64, valid: int, source: nat,
                           updatedMs: u64, now: u64)
    requires WellFormed(m)
    ensures WellFormed(Put(m, handle, index, value, valid, source, updatedMs, now).1)
  {
    var (status, after) := Put(m, handle, index, value, valid, source, updatedMs, now);
    if after != m {
      var d := m.devices[handle - 1];
      var e := after.log[|m.log|].entry;
      assert NormalEntry(e) && e.id == d.entries[index].id;
      AppendedKeepsWellFormed(m, handle, d.(entries := d.entries[index := e]), CHANGE, e, now);
    }
  }

  lemma SetPresenceKeepsWellFormed(m: Model, handle: u16, presence: nat, now: u64)
    requires WellFormed(m)
    ensures WellFormed(SetPresence(m, handle, presence, now).1)
  {
    var (status, after) := SetPresence(m, handle, presence, now);
    if after != m {
      AppendedKeepsWellFormed(m, handle, m.devices[handle - 1].(presence := presence), PRESENCE, NO_ENTRY, now);
    }
  }
}
