/**
 The registry object: catalogs updated in place and a ring of JOURNAL_SIZE changes.  Every
 method is proved to do what the value of module CacheModel does with its unbounded history.
 */
module CacheRegistry {
  import opened Words
  import opened Statuses
  import opened CacheModel

  /** The registry as the firmware keeps it: a bounded ring in place of the history. */
  class Registry {
    var generation: u32
    var head: nat
    const devices: array<Device>
    const journal: array<Change>
    ghost var log: seq<Change>

    ghost predicate Valid()
      reads this, devices, journal
    {
      && devices.Length == DEVICES_MAX
      && journal.Length == JOURNAL_SIZE
      && head == |log|
      && (forall i :: 0 <= i < |log| && |log| - i <= JOURNAL_SIZE ==> journal[i % JOURNAL_SIZE] == log[i])
      && WellFormed(Model(devices[..], generation, log))
    }

    ghost function Abstract(): Model
      reads this, devices
    {
      Model(devices[..], generation, log)
    }

    constructor ()
      ensures Valid() && fresh(devices) && fresh(journal)
      ensures Abstract() == Model(seq(DEVICES_MAX, _ => NO_DEVICE), 0, [])
    {
      devices := new Device[DEVICES_MAX](_ => NO_DEVICE);
      journal := new Change[JOURNAL_SIZE](_ => NO_CHANGE);
      generation, head, log := 0, 0, [];
    }

    method Append(handle: u16, d: Device, kind: u8, entry: Entry, now: u64)
      requires Valid() && Live(Abstract(), handle)
      requires WellFormed(Appended(Abstract(), handle, d, kind, entry, now))
      modifies this`head, this`log, devices, journal
      ensures Valid()
      ensures Abstract() == Appended(old(Abstract()), handle, d, kind, entry, now)
    {
      ghost var before := Abstract();
      var slot := head % JOURNAL_SIZE;
      head := head + 1;
      var revised := d.(revision := d.revision + 1);
      var change := Change(head, revised.revision, now, revised.generation, handle, kind, revised.presence, entry);
      RingSlots(|log|);
      journal[slot] := change;
      devices[handle - 1] := revised;
      log := log + [change];
      assert Abstract() == Appended(before, handle, d, kind, entry, now);
    }

    /** Scans the slots once, for a clash of names and for the first free slot. */
    method FindSlot(handle: u16, subsystem: Bytes, name: Bytes) returns (clash: bool, slot: nat)
      requires Valid()
      requires handle != 0 ==> Live(Abstract(), handle)
      ensures clash == Clash(Abstract(), handle, subsystem, name)
      ensures !clash ==> slot == if handle != 0 then handle - 1 else FirstFree(devices[..])
    {
      slot := if handle != 0 then handle - 1 else DEVICES_MAX;
      var i := 0;
      while i < DEVICES_MAX
        invariant 0 <= i <= DEVICES_MAX
        invariant handle != 0 ==> slot == handle - 1
        invariant handle == 0 ==> slot == (if FirstFree(devices[..]) < i then FirstFree(devices[..]) else DEVICES_MAX)
        invariant forall k :: 0 <= k < i && k + 1 != handle ==> !SameTarget(devices[..][k], subsystem, name)
      {
        var d := devices[i];
        assert d == devices[..][i];
        if d.generation == 0 && slot == DEVICES_MAX {
          slot := i;
        }
        if d.generation != 0 && i + 1 != handle && d.subsystem == subsystem && d.name == name {
          return true, slot;
        }
        i := i + 1;
      }
      clash := false;
    }

    /** Checks and normalizes a whole catalog before any of it is published. */
    method Stage(described: seq<Entry>) returns (valid: bool, staging: seq<Entry>)
      ensures valid == CatalogValid(described)
      ensures valid ==> staging == NormalizedAll(described)
    {
      staging := [];
      var i := 0;
      while i < |described|
        invariant 0 <= i <= |described|
        invariant |staging| == i
        invariant forall k :: 0 <= k < i ==> staging[k] == Normalized(described[k])
        invariant CatalogValid(described[..i])
      {
        var a := described[i];
        if !NameValid(a.id) || a.widthBits == 0 || a.widthBits > 64 || a.source > SOURCE_DEVICE ||
           (a.valid != 0 && a.widthBits < 64 && a.value >= Pow2(a.widthBits)) {
          return false, staging;
        }
        var j := 0;
        while j < i
          invariant 0 <= j <= i
          invariant forall k :: 0 <= k < j ==> described[k].id != a.id
        {
          if staging[j].id == a.id {
            return false, staging;
          }
          j := j + 1;
        }
        staging := staging + [Normalized(a)];
        i := i + 1;
      }
      assert described[..|described|] == described;
      valid := true;
    }

    method Define(handle: u16, subsystem: Bytes, name: Bytes, presence: nat, described: seq<Entry>)
      returns (status: Status, slotHandle: u16)
      requires Valid()
      modifies this`generation, devices
      ensures Valid()
      ensures DefineResult(status, Abstract(), slotHandle) ==
              CacheModel.Define(old(Abstract()), handle, subsystem, name, presence, described)
    {
      if !NameValid(subsystem) || !NameValid(name) || |described| > RESOURCES_MAX ||
         presence > PRESENCE_UNAVAILABLE {
        return Malformed, handle;
      }
      if handle != 0 && !(handle <= DEVICES_MAX && devices[handle - 1].generation != 0) {
        return NotFound, handle;
      }
      var clash, slot := FindSlot(handle, subsystem, name);
      if clash {
        return Denied, handle;
      }
      if slot == DEVICES_MAX {
        return Busy, handle;
      }
      var valid, staging := Stage(described);
      if !valid {
        return Malformed, handle;
      }
      ghost var before := Abstract();
      DefineKeepsWellFormed(before, handle, subsystem, name, presence, described);
      var g := NextNonZero(generation);
      devices[slot] := Device(subsystem, name, g, 0, 0, presence, staging);
      generation := g;
      assert devices[..] == before.devices[slot := Device(subsystem, name, g, 0, 0, presence, staging)];
      status, slotHandle := Ok, slot + 1;
    }

    method Put(handle: u16, index: nat, value: u64, valid: int, source: nat, updatedMs: u64, now: u64)
      returns (status: Status)
      requires Valid()
      modifies this`head, this`log, devices, journal
      ensures Valid()
      ensures (status, Abstract()) ==
              CacheModel.Put(old(Abstract()), handle, index, value, valid, source, updatedMs, now)
    {
      PutKeepsWellFormed(Abstract(), handle, index, value, valid, source, updatedMs, now);
      if !(1 <= handle <= DEVICES_MAX && devices[handle - 1].generation != 0) {
        return NotFound;
      }
      var d := devices[handle - 1];
      if index >= |d.entries| || source > SOURCE_DEVICE ||
         (valid != 0 && d.entries[index].widthBits < 64 && value >= Pow2(d.entries[index].widthBits)) {
        return Range;
      }
      if valid == 0 && d.entries[index].valid == 0 {
        return Ok;
      }
      var e := Normalized(d.entries[index].(value := value, valid := if valid != 0 then 1 else 0,
                                            source := source, updatedMs := updatedMs));
      Append(handle, d.(entries := d.entries[index := e]), CHANGE, e, now);
      status := Ok;
    }

    method SetPresence(handle: u16, presence: nat, now: u64) returns (status: Status)
      requires Valid()
      modifies this`head, this`log, devices, journal
      ensures Valid()
      ensures (status, Abstract()) == CacheModel.SetPresence(old(Abstract()), handle, presence, now)
    {
      SetPresenceKeepsWellFormed(Abstract(), handle, presence, now);
      if !(1 <= handle <= DEVICES_MAX && devices[handle - 1].generation != 0) {
        return NotFound;
      }
      if presence > PRESENCE_UNAVAILABLE {
        return Range;
      }
      var d := devices[handle - 1];
      if d.presence != presence {
        Append(handle, d.(presence := presence), PRESENCE, NO_ENTRY, now);
      }
      status := Ok;
    }

    method Snapshot(subsystem: Bytes, name: Bytes, now: u64) returns (found: Option<Capture>)
      requires Valid()
      ensures found == CacheModel.Snapshot(Abstract(), subsystem, name, now)
    {
      var i := 0;
      while i < DEVICES_MAX
        invariant 0 <= i <= DEVICES_MAX
        invariant i <= FirstTarget(devices[..], subsystem, name)
      {
        var d := devices[i];
        assert d == devices[..][i];
        if d.generation != 0 && d.subsystem == subsystem && d.name == name {
          return Some(Capture(d.(capturedMs := now), i + 1, head));
        }
        i := i + 1;
      }
      found := None;
    }

    /** The caller's cursor moves even when nothing was found for its device. */
    method Next(handle: u16, generation: u32, cursor: nat) returns (r: NextResult, advanced: nat)
      requires Valid()
      ensures r == CacheModel.Next(Abstract(), handle, generation, cursor)
      ensures advanced == (match r case Resync(_) => cursor case CaughtUp => head case Delivered(_, c) => c)
    {
      advanced := cursor;
      if !(1 <= handle <= DEVICES_MAX && devices[handle - 1].generation != 0) {
        return Resync(RECONFIGURED), cursor;
      }
      if devices[handle - 1].generation != generation {
        return Resync(RECONFIGURED), cursor;
      }
      if cursor > head || head - cursor > JOURNAL_SIZE {
        return Resync(LOST), cursor;
      }
      while advanced < head
        invariant cursor <= advanced <= head
        invariant NextIn(log, handle, cursor) == NextIn(log, handle, advanced)
      {
        var c := journal[advanced % JOURNAL_SIZE];
        assert c == log[advanced];
        advanced := advanced + 1;
        if c.handle == handle {
          return Delivered(c, advanced), advanced;
        }
      }
      r := CaughtUp;
    }
  }

  /** Within one window of the ring no two history positions share a slot. */
  lemma RingSlots(n: nat)
    ensures forall i :: 0 <= i < n && n - i < JOURNAL_SIZE ==> i % JOURNAL_SIZE != n % JOURNAL_SIZE
  {
  }
}
