/**
 The FS service of one connection: opening, reading and closing streams over two slots, and a
 client that downloads a stream block by block.
 */
module FsService {
  import opened Words
  import opened Buffers
  import opened FsNames
  import opened FsTree
  import opened FsBackend
  import opened FsReader
  import opened FsSession

  const READ_HEADER := 12

  /** The answer to a successful READ: a function of the stream and the block number alone. */
  function ReadBody(o: Opened, handle: u32, n: u32): Bytes {
    var block := BlockAt(o.stream, o.BlockSize(), n);
    Be(4, handle) + Be(4, n) + [if EndsAt(o.kind, o.stream, o.BlockSize(), n) then 1 else 0, 0] + Be(2, |block|) + block
  }

  datatype Wanted = Refused(status: u16) | Wanted(openId: u32, kind: u8, flags: u8, requested: u16, path: Bytes)

  /** An OPEN request before any handle is looked at. */
  function ParseOpen(body: Bytes, capacity: nat): Wanted {
    Limits();
    if |body| < 10 then Refused(MALFORMED)
    else if capacity < 14 then Refused(INTERNAL)
    else
      var openId, kind, flags, requested := FromBe(body[..4]), body[4], body[5], FromBe(body[6..8]);
      if openId == 0 then Refused(MALFORMED)
      else if requested > BLOCK_MAX then Refused(RANGE)
      else if kind < FILE_STREAM || kind > TAR_STREAM then Refused(UNSUPPORTED)
      else if (kind != TREE_STREAM && flags != 0) || flags > 1 then Refused(MALFORMED)
      else if |body| != 10 + FromBe(body[8..10]) then Refused(MALFORMED)
      else
        match ValidatePath(body[10..])
        case Rejected(why) => Refused(WireStatus(why))
        case Path(path) => Wanted(openId, kind, flags, requested, path)
  }

  function Fits(o: Opened, w: Wanted): bool
    requires w.Wanted?
  {
    o.kind == w.kind && o.flags == w.flags && o.requested == w.requested && o.path == w.path
  }

  predicate Idle(s: Slot, now: u32)
    reads s
  {
    (now - s.activity) % U32_LIMIT >= IDLE_MS
  }

  /** Block `n` is the one served last. */
  predicate Holding(s: Slot, n: u32)
    reads s
  {
    s.terminal == 0 && s.hasBlock && s.lastBlock == n
  }

  /** What asking for block `n` comes to, unless the disk fails. */
  function ReadVerdict(s: Slot, n: u32, capacity: nat): u16
    reads s
  {
    if capacity < s.blockSize + READ_HEADER then INTERNAL
    else if s.terminal != 0 then s.terminal
    else if s.InTurn(n) then OK
    else RANGE
  }

  ghost predicate SameId(s: Slot, w: Wanted)
    reads s
    requires w.Wanted?
  {
    s.handle != 0 && s.grant.openId == w.openId
  }

  /** What a request for a stream is granted over this disk. */
  ghost function Granted(w: Wanted, disk: Disk): Opened
    requires w.Wanted?
  {
    Opened(w.openId, w.kind, w.flags, w.requested, w.path, StreamOf(disk, w.path, w.kind, w.flags),
           BarOf(disk, w.path, w.kind, w.flags))
  }

  /** What opening it anew comes to, unless the disk fails. */
  ghost function FreshVerdict(w: Wanted, disk: Disk): u16
    requires w.Wanted?
  {
    WireStatus(OpeningOf(disk, w.path, w.kind, w.flags))
  }

  /** A record names the stream its path really stands for. */
  ghost predicate Genuine(o: Opened, disk: Disk) {
    o.stream == StreamOf(disk, o.path, o.kind, o.flags) && o.bar == BarOf(disk, o.path, o.kind, o.flags)
  }

  ghost predicate Grows(before: map<u32, Opened>, after: map<u32, Opened>) {
    forall h :: h in before ==> h in after && after[h] == before[h]
  }

  lemma GrantedIsGenuine(w: Wanted, disk: Disk)
    requires w.Wanted?
    ensures Genuine(Granted(w, disk), disk) && Granted(w, disk).openId == w.openId
  {
  }

  function OpenBody(o: Opened, handle: u32): Bytes { Be(4, handle) + Be(2, o.BlockSize()) + Be(8, o.Total()) }

  /** The slot's own account of what an OPEN must be answered with. */
  ghost predicate Announced(s: Slot, record: map<u32, Opened>)
    reads s, s.reader
  {
    && s.handle in record && s.reader != null && s.blockSize == record[s.handle].BlockSize()
    && s.reader.totalSize == record[s.handle].Total()
  }

  method Announce(s: Slot, ghost o: Opened, out: array<u8>) returns (size: u16)
    requires s.reader != null && s.blockSize == o.BlockSize() && s.reader.totalSize == o.Total() && 14 <= out.Length
    modifies out
    ensures size == 14 && out[..14] == OpenBody(o, s.handle)
  {
    hide Be;
    var handle, blockSize, total := s.handle, s.blockSize, s.reader.totalSize;
    Put(out, 0, 4, handle);
    Put(out, 4, 2, blockSize);
    Put(out, 6, 8, total);
    size := 14;
  }

  datatype Opcode = OPEN | READ | CLOSE

  lemma WantedFits(body: Bytes, capacity: nat)
    requires ParseOpen(body, capacity).Wanted?
    ensures ParseOpen(body, capacity).requested <= BLOCK_MAX && 14 <= capacity
  {
  }

  /** A READ was answered with the block it asked for, of the stream its handle stands for. */
  ghost predicate Served(record: map<u32, Opened>, body: Bytes, reply: Bytes)
    requires |body| == 8
  {
    Limits();
    var handle: u32, n: u32 := FromBe(body[..4]), FromBe(body[4..]);
    handle in record && reply == ReadBody(record[handle], handle, n)
  }

  /** Writes the answer to a READ from the slot's cache. */
  method Respond(s: Slot, ghost o: Opened, n: u32, out: array<u8>) returns (size: u16)
    requires s.cachedSize <= s.cached.Length == BLOCK_MAX && out != s.cached && READ_HEADER + s.cachedSize <= out.Length
    requires s.cached[..s.cachedSize] == BlockAt(o.stream, o.BlockSize(), n) && s.eof == EndsAt(o.kind, o.stream, o.BlockSize(), n)
    modifies out
    ensures size == READ_HEADER + s.cachedSize && out[..size] == ReadBody(o, s.handle, n)
  {
    hide Be, BlockAt, EndsAt, Over;
    ghost var block := BlockAt(o.stream, o.BlockSize(), n);
    assert |block| == s.cachedSize;
    ghost var done := [];
    Further(out[..], done, Be(4, s.handle));
    Put(out, 0, 4, s.handle);
    done := Be(4, s.handle);
    Further(out[..], done, Be(4, n));
    Put(out, 4, 4, n);
    done := done + Be(4, n);
    out[8] := if s.eof then 1 else 0;
    out[9] := 0;
    assert out[..10] == done + [out[8], 0];
    done := out[..10];
    Further(out[..], done, Be(2, s.cachedSize));
    Put(out, 10, 2, s.cachedSize);
    done := done + Be(2, s.cachedSize);
    Further(out[..], done, block);
    PutBytes(out, READ_HEADER, s.cached[..s.cachedSize]);
    size := READ_HEADER + s.cachedSize;
  }

  /** A buffer filled up to some point, filled a little further. */
  lemma Further(b: Bytes, done: Bytes, more: Bytes)
    requires |done| + |more| <= |b| && b[..|done|] == done
    ensures Over(b, |done|, more)[..|done| + |more|] == done + more
  {
  }

  /** A read that could be served is served, unless the disk failed or its contents could not be walked; then its
      error is the last word on this handle. */
  ghost function AfterFaults(verdict: u16, status: u16, s: Slot, backend: Backend): u16
    reads s
  {
    if verdict == OK && s.terminal != OK && !(backend.Faultless() && s.grant.bar == Ok) then s.terminal else verdict
  }

  /** Block `n` of a slot's stream, left in the slot's cache. */
  method Ask(s: Slot, backend: Backend, n: u32, now: u32, capacity: nat) returns (status: u16)
    requires s.Good(backend) && s.handle != 0 && backend.Valid()
    modifies s`activity, s`lastBlock, s`hasBlock, s`cachedSize, s`eof, s`terminal, s.cached, s.reader, s.reader.stage, backend
    ensures s.Good(backend) && backend.Valid()
    ensures backend.dirs - s.DirsHeld() == old(backend.dirs - s.DirsHeld())
    ensures backend.files - s.FilesHeld() == old(backend.files - s.FilesHeld())
    ensures unchanged(s`handle, s`reader, s`blockSize, s`grant) && s.activity == now
    ensures status == OK ==> capacity >= s.blockSize + READ_HEADER && Holding(s, n)
    ensures status == AfterFaults(old(ReadVerdict(s, n, capacity)), status, s, backend)
    ensures old(Holding(s, n)) ==> backend.tick == old(backend.tick) && status == old(ReadVerdict(s, n, capacity))
  {
    hide Slot.Good, Slot.DirsHeld, Slot.FilesHeld;
    s.Stamp(backend, now);
    status := s.ReadBlock(backend, n, capacity);
  }

  predicate Meets(promise: Option<u16>, status: u16) { promise.Some? ==> status == promise.value }

  lemma FaultlessAfter(verdict: u16, status: u16, s: Slot, backend: Backend)
    ensures verdict != OK || (backend.Faultless() && s.grant.bar == Ok) ==> AfterFaults(verdict, status, s, backend) == verdict
  {
  }

  class Session {
    const backend: Backend
    const first: Slot
    const second: Slot
    var nextHandle: u32
    /** Every handle ever issued, with what it was opened for. */
    ghost var record: map<u32, Opened>

    ghost predicate Valid()
      reads this, backend, first, second, first.cached, second.cached
      reads if first.reader != null then {first.reader, first.reader.stage} else {}
      reads if second.reader != null then {second.reader, second.reader.stage} else {}
    {
      Sharing(first, second, backend) && Recorded()
    }

    ghost predicate Recorded()
      reads `record, `nextHandle, first`handle, first`grant, second`handle, second`grant
    {
      && (forall h :: h in record ==> h != 0 && (nextHandle == 0 || h < nextHandle) && Genuine(record[h], backend.disk))
      && (first.handle != 0 ==> first.handle in record && record[first.handle] == first.grant)
      && (second.handle != 0 ==> second.handle in record && record[second.handle] == second.grant)
      && (first.handle != 0 && second.handle != 0 ==> first.handle != second.handle && first.grant.openId != second.grant.openId)
    }

    ghost function Footprint(): set<object>
      reads this, first, second
    {
      {this, backend} + first.Own() + second.Own()
    }

    function At(i: nat): (s: Slot)
      ensures s == first || s == second
    {
      if i == 0 then first else second
    }

    constructor (backend: Backend)
      requires backend.Valid() && backend.dirs == map[] && backend.files == map[]
      ensures Valid() && fresh(Footprint() - {backend}) && this.backend == backend && record == map[]
    {
      this.backend := backend;
      first := new Slot();
      second := new Slot();
      nextHandle, record := 1, map[];
    }

    /** Work on one slot leaves the other as it was. */
    twostate lemma OtherKept(i: nat)
      requires i < HANDLES_MAX && old(Sharing(At(i), At(1 - i), backend))
      requires At(i).Good(backend) && backend.Valid() && At(1 - i).Untouched() && Distinct(At(i), At(1 - i))
      requires backend.dirs - At(i).DirsHeld() == old(backend.dirs - At(i).DirsHeld())
      requires backend.files - At(i).FilesHeld() == old(backend.files - At(i).FilesHeld())
      ensures Sharing(At(i), At(1 - i), backend)
    {
      hide Slot.Good, Handles;
      var s, t := At(i), At(1 - i);
      HeldIsOpen(s, backend);
      var dirs, files := old(backend.dirs), old(backend.files);
      var dirsHeld, filesHeld := old(s.DirsHeld()), old(s.FilesHeld());
      AsideSame(dirs, backend.dirs, dirsHeld, s.DirsHeld(), t.DirsHeld());
      AsideSame(files, backend.files, filesHeld, s.FilesHeld(), t.FilesHeld());
      t.Kept(backend);
    }

    lemma SharingAt(i: nat)
      requires Sharing(first, second, backend) || Sharing(second, first, backend)
      ensures Sharing(first, second, backend) && Sharing(At(i), if i == 0 then second else first, backend)
    {
      hide Slot.Good;
      if Sharing(first, second, backend) {
        SharingSwaps(first, second, backend);
      } else {
        SharingSwaps(second, first, backend);
      }
    }

    method Release(i: nat)
      requires Valid() && i < HANDLES_MAX
      modifies Footprint()
      ensures Valid() && At(i).handle == 0 && Footprint() <= old(Footprint())
      ensures record == old(record) && nextHandle == old(nextHandle)
      ensures unchanged(At(1 - i))
    {
      hide Slot.Good, Slot.DirsHeld, Slot.FilesHeld, Sharing, Recorded, Genuine;
      SharingAt(i);
      var s := At(i);
      GoodAt(i);
      AllButOne(i);
      s.Release(backend);
      OneFree(i);
      NothingHeldBy(s);
      MapMinusNone(backend.dirs);
      MapMinusNone(backend.files);
      OtherKept(i);
      SharingAt(i);
    }

    /** Handles idle for half a minute are closed. */
    method Expire(now: u32)
      requires Valid()
      modifies Footprint()
      ensures Valid() && Footprint() <= old(Footprint()) && record == old(record) && nextHandle == old(nextHandle)
      ensures forall i :: 0 <= i < HANDLES_MAX ==>
                if old(At(i).handle != 0 && Idle(At(i), now)) then At(i).handle == 0 else unchanged(At(i))
    {
      hide Sharing, Recorded;
      var i := 0;
      while i < HANDLES_MAX
        invariant 0 <= i <= HANDLES_MAX && Valid() && Footprint() <= old(Footprint())
        invariant record == old(record) && nextHandle == old(nextHandle)
        invariant forall k :: 0 <= k < i ==>
                    if old(At(k).handle != 0 && Idle(At(k), now)) then At(k).handle == 0 else unchanged(At(k))
        invariant forall k :: i <= k < HANDLES_MAX ==> unchanged(At(k))
      {
        if At(i).handle != 0 && (now - At(i).activity) % U32_LIMIT >= IDLE_MS {
          Release(i);
        }
        i := i + 1;
      }
    }

    /** Nothing stays open. */
    method Destroy()
      requires Valid()
      modifies Footprint()
      ensures Valid() && backend.dirs == map[] && backend.files == map[] && record == old(record)
    {
      Release(0);
      Release(1);
      NothingHeldBy(first);
      NothingHeldBy(second);
    }

    /** The slot a live handle sits in. */
    method Find(handle: u32) returns (i: nat)
      requires Valid() && handle != 0
      ensures i <= HANDLES_MAX
      ensures i < HANDLES_MAX ==> At(i).handle == handle
      ensures i == HANDLES_MAX ==> first.handle != handle && second.handle != handle
    {
      hide Sharing, Recorded;
      assert first == At(0) && second == At(1);
      i := 0;
      while i < HANDLES_MAX
        invariant 0 <= i <= HANDLES_MAX && forall k :: 0 <= k < i ==> At(k).handle != handle
      {
        if At(i).handle == handle {
          return;
        }
        i := i + 1;
      }
    }

    /** Block `n` of the stream in slot `i`, left in the slot's cache. */
    method ReadSlot(i: nat, n: u32, now: u32, capacity: nat) returns (status: u16)
      requires Valid() && i < HANDLES_MAX && At(i).handle != 0
      modifies Footprint()
      ensures Valid() && Footprint() == old(Footprint()) && record == old(record) && nextHandle == old(nextHandle)
      ensures unchanged(At(1 - i)) && At(i).handle == old(At(i).handle) && At(i).grant == old(At(i).grant) && At(i).activity == now
      ensures status == OK ==> capacity >= At(i).blockSize + READ_HEADER && Holding(At(i), n)
      ensures status == AfterFaults(old(ReadVerdict(At(i), n, capacity)), status, At(i), backend)
      ensures old(Holding(At(i), n)) ==> backend.tick == old(backend.tick) && status == old(ReadVerdict(At(i), n, capacity))
    {
      hide Slot.Good, Slot.DirsHeld, Slot.FilesHeld, Sharing, ReadVerdict, AfterFaults, Holding, Recorded;
      SharingAt(i);
      GoodAt(i);
      status := Ask(At(i), backend, n, now, capacity);
      OtherKept(i);
      SharingAt(i);
    }

    /** The bytes served for a block are the record's, whenever they are asked for. */
    lemma CachedAt(i: nat, n: u32)
      requires Valid() && i < HANDLES_MAX && At(i).handle != 0 && Holding(At(i), n)
      ensures var s := At(i);
        && s.handle in record && s.blockSize == record[s.handle].BlockSize() && s.cachedSize <= s.cached.Length == BLOCK_MAX
        && s.cachedSize <= s.blockSize && s.cached[..s.cachedSize] == BlockAt(record[s.handle].stream, s.blockSize, n)
        && s.eof == EndsAt(record[s.handle].kind, record[s.handle].stream, s.blockSize, n)
    {
      hide Reader.Valid, Reader.Sound, Reader.Ahead, Left;
      SharingAt(i);
      GoodAt(i);
      At(i).CachedIs(backend);
    }

    method Read(handle: u32, n: u32, now: u32, out: array<u8>, capacity: nat) returns (status: u16, size: u16)
      requires Valid() && capacity <= out.Length && out !in Footprint()
      modifies Footprint(), out
      ensures Valid() && Footprint() == old(Footprint()) && record == old(record)
      ensures status == OK ==>
                handle in record && size <= capacity && out[..size] == ReadBody(record[handle], handle, n)
      ensures status != OK ==> size == 0
      ensures old(Seat(handle)) == HANDLES_MAX ==> status == BAD_HANDLE
      ensures old(Seat(handle)) < HANDLES_MAX ==>
                var i := old(Seat(handle));
                && Seat(handle) == i && status == AfterFaults(old(ReadVerdict(At(i), n, capacity)), status, At(i), backend)
                && (old(Holding(At(i), n)) ==> backend.tick == old(backend.tick) && status == old(ReadVerdict(At(i), n, capacity)))
      ensures Meets(old(ReadPromise(handle, n, capacity)), status)
      ensures status == OK ==> Current(handle, n, now)
    {
      hide Sharing, Recorded, Be, BlockAt, EndsAt, ReadVerdict, AfterFaults, Holding, ReadBody, Seat;
      size := 0;
      if handle == 0 {
        NoSeat(handle);
        return BAD_HANDLE, 0;
      }
      var i := Find(handle);
      if i == HANDLES_MAX {
        NoSeat(handle);
        return BAD_HANDLE, 0;
      }
      SeatIs(i);
      ghost var verdict := ReadVerdict(At(i), n, capacity);
      status := ReadSlot(i, n, now, capacity);
      FaultlessAfter(verdict, status, At(i), backend);
      SeatIs(i);
      if status == OK {
        CachedAt(i, n);
        RecordOf(i);
        size := Respond(At(i), record[handle], n, out);
      }
    }

    /** The slot a live handle sits in. */
    ghost function Seat(handle: u32): nat
      reads first, second
    {
      if handle == 0 then HANDLES_MAX else if first.handle == handle then 0 else if second.handle == handle then 1 else HANDLES_MAX
    }

    /** The handle's slot has just served block `n`. */
    ghost predicate Current(handle: u32, n: u32, now: u32)
      reads this, first, second
    {
      && handle in record && Seat(handle) < HANDLES_MAX
      && var s, o := At(Seat(handle)), record[handle];
         && Holding(s, n) && s.activity == now && s.grant == o && s.blockSize == o.BlockSize()
         && s.eof == EndsAt(o.kind, o.stream, o.BlockSize(), n)
    }

    /** The handle is live and will not be closed for being idle. */
    ghost predicate Awake(handle: u32, now: u32)
      reads first, second
    {
      Seat(handle) < HANDLES_MAX && !Idle(At(Seat(handle)), now)
    }

    lemma NoSeat(handle: u32)
      requires handle == 0 || (first.handle != handle && second.handle != handle)
      ensures Seat(handle) == HANDLES_MAX
    {
    }

    lemma SeatIs(i: nat)
      requires Valid() && i < HANDLES_MAX && At(i).handle != 0
      ensures Seat(At(i).handle) == i
    {
      OneHandle(i);
    }

    /** The slot that already serves an OPEN's id, if any. */
    ghost function Serving(w: Wanted): nat
      reads first, second
      requires w.Wanted?
    {
      if SameId(first, w) then 0 else if SameId(second, w) then 1 else HANDLES_MAX
    }

    /** The slot an OPEN lands in: the live one of the same id, or the first free one. */
    method Search(w: Wanted) returns (conflict: bool, slot: nat)
      requires Valid() && w.Wanted?
      ensures conflict == (Serving(w) < HANDLES_MAX && !Fits(At(Serving(w)).grant, w))
      ensures slot <= HANDLES_MAX
      ensures !conflict && Serving(w) < HANDLES_MAX ==> slot == Serving(w)
      ensures Serving(w) == HANDLES_MAX ==>
                if slot == HANDLES_MAX then first.handle != 0 && second.handle != 0 else At(slot).handle == 0
    {
      hide Sharing, Recorded;
      slot := HANDLES_MAX;
      var i := 0;
      while i < HANDLES_MAX
        invariant 0 <= i <= HANDLES_MAX && slot <= HANDLES_MAX
        invariant forall k :: 0 <= k < i ==> !SameId(At(k), w)
        invariant slot < HANDLES_MAX ==> slot < i && At(slot).handle == 0
        invariant slot == HANDLES_MAX ==> forall k :: 0 <= k < i ==> At(k).handle != 0
      {
        var s := At(i);
        GoodOf(i);
        if s.handle != 0 && s.openId == w.openId {
          conflict := s.reader.kind != w.kind || s.reader.flags != w.flags || s.requested != w.requested || s.reader.root != w.path;
          assert SameId(At(i), w);
          OnlyOne(i, w);
          return conflict, i;
        }
        if s.handle == 0 && slot == HANDLES_MAX {
          slot := i;
        }
        i := i + 1;
      }
      assert At(0) == first && At(1) == second;
      conflict := false;
    }

    lemma GoodOf(i: nat)
      requires Valid() && i < HANDLES_MAX
      ensures var s := At(i); s.handle != 0 ==> s.reader != null && s.Named()
    {
      hide Reader.Valid, Reader.Sound, Reader.Ahead, Left;
      SharingAt(i);
      GoodAt(i);
    }

    lemma OnlyOne(i: nat, w: Wanted)
      requires Valid() && i < HANDLES_MAX && w.Wanted? && SameId(At(i), w)
      ensures !SameId(At(1 - i), w)
    {
      hide Sharing;
    }

    /** Opens a reader in a free slot; the record does not know of it yet. */
    method Occupy(i: nat, w: Wanted) returns (status: u16)
      requires Sharing(first, second, backend) && i < HANDLES_MAX && At(i).handle == 0 && nextHandle != 0
      requires w.Wanted? && w.requested <= BLOCK_MAX
      modifies At(i), backend
      ensures Sharing(first, second, backend) && fresh(Footprint() - old(Footprint()))
      ensures if status == OK then At(i).handle == nextHandle && At(i).grant == Granted(w, backend.disk) else At(i).handle == 0
      ensures backend.Faultless() ==> status == FreshVerdict(w, backend.disk)
    {
      hide Slot.Good, Slot.DirsHeld, Slot.FilesHeld, Sharing, StreamOf, BarOf, OpeningOf, WireStatus;
      SharingAt(i);
      GoodAt(i);
      var s := At(i);
      NothingHeldBy1(i);
      MapMinusNone(backend.dirs);
      MapMinusNone(backend.files);
      status := s.Admit(backend, w.openId, w.path, w.kind, w.flags, w.requested, nextHandle);
      OtherKept(i);
      SharingAt(i);
    }

    /** Opens a new stream in a free slot, under a handle never used before. */
    method Issue(i: nat, w: Wanted) returns (status: u16)
      requires Valid() && i < HANDLES_MAX && At(i).handle == 0 && nextHandle != 0
      requires w.Wanted? && w.requested <= BLOCK_MAX && !SameId(At(1 - i), w)
      modifies this`nextHandle, this`record, At(i), backend
      ensures Valid() && fresh(Footprint() - old(Footprint()))
      ensures if status == OK then
                && nextHandle == (old(nextHandle) + 1) % U32_LIMIT && At(i).handle == old(nextHandle) && At(i).handle !in old(record)
                && At(i).grant == Granted(w, backend.disk)
                && record == old(record)[At(i).handle := At(i).grant]
              else nextHandle == old(nextHandle) && record == old(record) && At(i).handle == 0
      ensures backend.Faultless() ==> status == FreshVerdict(w, backend.disk)
    {
      hide Sharing, Slot.Good, Slot.DirsHeld, Slot.FilesHeld, Genuine, Granted, FreshVerdict, Recorded;
      SharingAt(i);
      GoodAt(i);
      GrantedIsGenuine(w, backend.disk);
      AllButOne(i);
      status := Occupy(i, w);
      if status == OK {
        Enroll(i);
      } else {
        OneFree(i);
      }
    }

    /** The record as far as slot `i` does not matter. */
    ghost predicate RecordedBut(i: nat)
      reads `nextHandle, `record, first`handle, first`grant, second`handle, second`grant
      requires i < HANDLES_MAX
    {
      && (forall h :: h in record ==> h != 0 && (nextHandle == 0 || h < nextHandle) && Genuine(record[h], backend.disk))
      && (At(1 - i).handle != 0 ==> At(1 - i).handle in record && record[At(1 - i).handle] == At(1 - i).grant)
    }

    lemma AllButOne(i: nat)
      requires Recorded() && i < HANDLES_MAX
      ensures RecordedBut(i) && (nextHandle != 0 ==> nextHandle !in record)
    {
      hide Genuine;
    }

    lemma OneFree(i: nat)
      requires i < HANDLES_MAX && RecordedBut(i) && At(i).handle == 0
      ensures Recorded()
    {
      hide Genuine;
    }

    /** Puts a slot just occupied on record. */
    method Enroll(i: nat)
      requires i < HANDLES_MAX && nextHandle != 0 && At(i).handle == nextHandle && Genuine(At(i).grant, backend.disk)
      requires RecordedBut(i) && nextHandle !in record
      requires At(1 - i).handle != 0 ==> At(1 - i).grant.openId != At(i).grant.openId
      modifies this`nextHandle, this`record
      ensures Recorded() && nextHandle == (old(nextHandle) + 1) % U32_LIMIT
      ensures record == old(record)[At(i).handle := At(i).grant]
    {
      hide StreamOf, BarOf, Genuine;
      record := record[nextHandle := At(i).grant];
      nextHandle := (nextHandle + 1) % U32_LIMIT;
    }

    lemma NothingHeldBy1(i: nat)
      requires i < HANDLES_MAX && At(i).Good(backend) && At(i).handle == 0
      ensures At(i).DirsHeld() == {} && At(i).FilesHeld() == {}
    {
    }

    /** Finds the stream an OPEN asks for, or opens it; nothing is opened twice. */
    method Choose(w: Wanted) returns (status: u16, i: nat)
      requires Valid() && w.Wanted? && w.requested <= BLOCK_MAX
      modifies Footprint()
      ensures Valid() && fresh(Footprint() - old(Footprint()))
      ensures Grows(old(record), record) && (status != OK ==> record == old(record))
      ensures status == OK ==> i < HANDLES_MAX && At(i).handle != 0 && At(i).grant == Granted(w, backend.disk)
      ensures old(Serving(w)) < HANDLES_MAX ==>
                && status == old(RepeatVerdict(w)) && (status == OK ==> i == old(Serving(w)))
                && record == old(record) && unchanged(first) && unchanged(second) && unchanged(backend)
      ensures Meets(old(OpenPromise(w)), status)
      ensures status == OK && old(Serving(w)) == HANDLES_MAX ==>
                nextHandle == (old(nextHandle) + 1) % U32_LIMIT && Serving(w) == i && Fits(At(i).grant, w)
    {
      hide Sharing, Recorded, StreamOf, BarOf, FreshVerdict;
      assert At(0) == first && At(1) == second;
      var conflict;
      conflict, i := Search(w);
      if conflict {
        return MALFORMED, i;
      }
      if i == HANDLES_MAX || nextHandle == 0 {
        return BUSY, i;
      }
      if At(i).handle != 0 {
        RecordOf(i);
        return OK, i;
      }
      status := Issue(i, w);
      if status == OK {
        ServedNow(i, w);
      }
    }

    lemma ServedNow(i: nat, w: Wanted)
      requires Valid() && i < HANDLES_MAX && w.Wanted? && At(i).handle != 0 && At(i).grant == Granted(w, backend.disk)
      ensures Serving(w) == i && Fits(At(i).grant, w)
    {
      hide Sharing, StreamOf, BarOf;
      assert SameId(At(i), w);
      OnlyOne(i, w);
      assert At(0) == first && At(1) == second;
    }

    /** With the last handle number there is, a stream is granted; asking for it again is answered as if there were no room. */
    method RepeatAfterTheLast(w: Wanted) returns (granted: u16, again: u16)
      requires Valid() && w.Wanted? && w.requested <= BLOCK_MAX && nextHandle == U32_LIMIT - 1 && Serving(w) == HANDLES_MAX
      modifies Footprint()
      ensures granted == OK ==> again == BUSY
      ensures backend.Faultless() && old(first.handle == 0 || second.handle == 0) ==> granted == FreshVerdict(w, backend.disk)
    {
      hide Sharing, Recorded, StreamOf, BarOf, FreshVerdict, Fits, Granted;
      var i;
      granted, i := Choose(w);
      again := 0;
      if granted == OK {
        again, i := Choose(w);
      }
    }

    /** What repeating an OPEN comes to. */
    ghost function RepeatVerdict(w: Wanted): u16
      reads `nextHandle, first, second
      requires w.Wanted? && Serving(w) < HANDLES_MAX
    {
      if !Fits(At(Serving(w)).grant, w) then MALFORMED else if nextHandle == 0 then BUSY else OK
    }

    /** What an OPEN comes to; a new stream depends on the disk, if that may fail. */
    ghost function OpenPromise(w: Wanted): Option<u16>
      reads `nextHandle, first, second
      requires w.Wanted?
    {
      if Serving(w) < HANDLES_MAX then Some(RepeatVerdict(w))
      else if (first.handle != 0 && second.handle != 0) || nextHandle == 0 then Some(BUSY)
      else if backend.Faultless() then Some(FreshVerdict(w, backend.disk))
      else None
    }

    /** What a READ comes to, unless it depends on the disk. */
    ghost function ReadPromise(handle: u32, n: u32, capacity: nat): Option<u16>
      reads first, second
    {
      if Seat(handle) == HANDLES_MAX then Some(BAD_HANDLE) else SlotPromise(At(Seat(handle)), n, capacity)
    }

    ghost function SlotPromise(s: Slot, n: u32, capacity: nat): Option<u16>
      reads s
    {
      var verdict := ReadVerdict(s, n, capacity);
      if verdict != OK || Holding(s, n) || (backend.Faultless() && s.grant.bar == Ok) then Some(verdict) else None
    }

    /** The answer that is due to a request, as far as it does not depend on the disk. */
    ghost function Promise(opcode: Opcode, body: Bytes, capacity: nat): Option<u16>
      reads `nextHandle, first, second
    {
      Limits();
      match opcode
      case OPEN =>
        var w := ParseOpen(body, capacity);
        if w.Refused? then Some(w.status) else OpenPromise(w)
      case READ =>
        if |body| != 8 then Some(MALFORMED) else ReadPromise(FromBe(body[..4]), FromBe(body[4..]), capacity)
      case CLOSE =>
        if |body| != 4 then Some(MALFORMED) else Some(if FromBe(body) == 0 then BAD_HANDLE else OK)
    }

    /** An OPEN with a known id and the same parameters is answered with the live handle, without any I/O. */
    method Open(w: Wanted, now: u32, out: array<u8>, capacity: nat) returns (status: u16, size: u16)
      requires Valid() && w.Wanted? && w.requested <= BLOCK_MAX && 14 <= capacity <= out.Length && out !in Footprint()
      modifies Footprint(), out
      ensures Valid() && fresh(Footprint() - old(Footprint())) && Grows(old(record), record)
      ensures status == OK ==> size == 14 && exists h :: h in record && record[h] == Granted(w, backend.disk) && out[..14] == OpenBody(record[h], h)
      ensures status != OK ==> size == 0 && record == old(record)
      ensures old(Serving(w)) < HANDLES_MAX ==>
                && status == old(RepeatVerdict(w)) && record == old(record) && unchanged(backend)
                && (status == OK ==> out[..14] == old(OpenBody(At(Serving(w)).grant, At(Serving(w)).handle)))
      ensures Meets(old(OpenPromise(w)), status)
    {
      hide Sharing, Recorded, StreamOf, BarOf, OpenBody, Serving, OpenPromise;
      var i;
      status, i := Choose(w);
      size := 0;
      if status == OK {
        RecordOf(i);
        Touch(i, now);
        ghost var h := At(i).handle;
        size := Announce(At(i), record[h], out);
        assert record[h] == Granted(w, backend.disk);
      }
    }

    lemma RecordOf(i: nat)
      requires Valid() && i < HANDLES_MAX && At(i).handle != 0
      ensures At(i).handle in record && record[At(i).handle] == At(i).grant && Genuine(At(i).grant, backend.disk)
    {
      hide Sharing, StreamOf, BarOf;
    }

    /** Marks the handle as used. */
    method Touch(i: nat, now: u32)
      requires Valid() && i < HANDLES_MAX && At(i).handle != 0
      modifies At(i)
      ensures Valid() && Footprint() == old(Footprint())
      ensures At(i).handle == old(At(i).handle) && At(i).grant == old(At(i).grant) && Announced(At(i), record)
    {
      hide Slot.Good, Slot.DirsHeld, Slot.FilesHeld, Sharing;
      SharingAt(i);
      GoodAt(i);
      At(i).Stamp(backend, now);
      OtherKept(i);
      SharingAt(i);
      GoodOf(i);
    }

    /** Closing a handle that is not open is not an error. */
    method Close(handle: u32) returns (status: u16)
      requires Valid()
      modifies Footprint()
      ensures Valid() && Footprint() <= old(Footprint()) && record == old(record)
      ensures status == if handle == 0 then BAD_HANDLE else OK
      ensures handle != 0 ==> first.handle != handle && second.handle != handle
    {
      hide Sharing;
      if handle == 0 {
        return BAD_HANDLE;
      }
      assert At(0) == first && At(1) == second;
      var i := Find(handle);
      if i < HANDLES_MAX {
        OneHandle(i);
        Release(i);
      }
      status := OK;
    }

    lemma OneHandle(i: nat)
      requires Valid() && i < HANDLES_MAX && At(i).handle != 0
      ensures At(1 - i).handle != At(i).handle
    {
      hide Sharing;
    }

    /** One request on a stream, once idle handles have been closed. */
    method Execute(opcode: Opcode, body: Bytes, now: u32, out: array<u8>, capacity: nat) returns (status: u16, size: u16)
      requires Valid() && capacity <= out.Length && out !in Footprint()
      modifies Footprint(), out
      ensures Valid() && fresh(Footprint() - old(Footprint())) && Grows(old(record), record)
      ensures status == OK ==> Answered(opcode, body, capacity, out, size)
      ensures Meets(old(Promise(opcode, body, capacity)), status)
      ensures opcode == READ && status == OK ==> Advanced(body, now)
    {
      hide Current, Sharing, Recorded, StreamOf, BarOf, OpenBody, ReadBody, Serving, ReadVerdict, FromBe, Limit, OpenPromise, ReadPromise;
      Limits();
      size := 0;
      match opcode {
        case OPEN =>
          var w := ParseOpen(body, capacity);
          if w.Refused? {
            return w.status, 0;
          }
          assert w.requested <= BLOCK_MAX && 14 <= capacity by { WantedFits(body, capacity); }
          status, size := Open(w, now, out, capacity);
        case READ =>
          if |body| != 8 {
            return MALFORMED, 0;
          }
          status, size := Read(FromBe(body[..4]), FromBe(body[4..]), now, out, capacity);
        case CLOSE =>
          if |body| != 4 {
            return MALFORMED, 0;
          }
          status := Close(FromBe(body));
      }
    }

    /** A successful request has been answered out of the record, or its handle is gone. */
    ghost predicate Answered(opcode: Opcode, body: Bytes, capacity: nat, out: array<u8>, size: u16)
      reads this, first, second, out
    {
      Limits();
      match opcode
      case OPEN =>
        && ParseOpen(body, capacity).Wanted? && size == 14 <= out.Length
        && exists h :: h in record && record[h] == Granted(ParseOpen(body, capacity), backend.disk) && out[..14] == OpenBody(record[h], h)
      case READ => |body| == 8 && size <= out.Length && Served(record, body, out[..size])
      case CLOSE => |body| == 4 && size == 0 && first.handle != FromBe(body) && second.handle != FromBe(body)
    }

    /** A READ that was answered leaves its block the one served last. */
    ghost predicate Advanced(body: Bytes, now: u32)
      reads this, first, second
    {
      Limits();
      |body| == 8 && Current(FromBe(body[..4]), FromBe(body[4..]), now)
    }

    ghost predicate NothingIdle(now: u32)
      reads this, first, second
    {
      forall i :: 0 <= i < HANDLES_MAX ==> At(i).handle == 0 || !Idle(At(i), now)
    }

    /** One request on a stream; idle handles are closed first. */
    method Request(opcode: Opcode, body: Bytes, now: u32, out: array<u8>, capacity: nat) returns (status: u16, size: u16)
      requires Valid() && capacity <= out.Length && out !in Footprint()
      modifies Footprint(), out
      ensures Valid() && fresh(Footprint() - old(Footprint())) && Grows(old(record), record)
      ensures status == OK ==> Answered(opcode, body, capacity, out, size)
      ensures old(NothingIdle(now)) ==> Meets(old(Promise(opcode, body, capacity)), status)
      ensures opcode == READ && old(AwakeFor(body, now)) ==> Meets(old(Promise(opcode, body, capacity)), status)
      ensures opcode == READ && status == OK ==> Advanced(body, now)
    {
      hide Sharing, Recorded, Promise, Answered, Advanced, AwakeFor, SlotPromise;
      ghost var awake, i, due := opcode == READ && AwakeFor(body, now), 0, None;
      if awake {
        i, due := Wanting(body, now, capacity);
      }
      Expire(now);
      assert At(0) == first && At(1) == second;
      if awake {
        StillWanting(body, i, capacity);
      }
      status, size := Execute(opcode, body, now, out, capacity);
    }

    /** What is due to a READ depends on its slot alone. */
    ghost method Wanting(body: Bytes, now: u32, capacity: nat) returns (i: nat, due: Option<u16>)
      requires Valid() && AwakeFor(body, now)
      ensures i < HANDLES_MAX && At(i).handle != 0 && !Idle(At(i), now) && Limit(4) == 0x1_0000_0000
      ensures |body| == 8 && At(i).handle == FromBe(body[..4]) && due == SlotPromise(At(i), FromBe(body[4..]), capacity)
      ensures Promise(READ, body, capacity) == due
    {
      hide Sharing, Recorded, SlotPromise, FromBe, Limit;
      Limits();
      i := Seat(FromBe(body[..4]));
      due := SlotPromise(At(i), FromBe(body[4..]), capacity);
    }

    lemma StillWanting(body: Bytes, i: nat, capacity: nat)
      requires Valid() && i < HANDLES_MAX && |body| == 8 && Limit(4) == 0x1_0000_0000 && At(i).handle != 0 && At(i).handle == FromBe(body[..4])
      ensures Promise(READ, body, capacity) == SlotPromise(At(i), FromBe(body[4..]), capacity)
    {
      hide Sharing, Recorded, SlotPromise, FromBe, Limit;
      SeatIs(i);
    }

    /** The handle a READ names is live and awake. */
    ghost predicate AwakeFor(body: Bytes, now: u32)
      reads first, second
    {
      Limits();
      |body| == 8 && Awake(FromBe(body[..4]), now)
    }

    lemma GoodAt(i: nat)
      requires i < HANDLES_MAX && Sharing(At(i), At(1 - i), backend)
      ensures At(i).Good(backend) && backend.Valid() && Distinct(At(i), At(1 - i))
    {
    }
  }

  lemma NothingHeldBy(s: Slot)
    requires s.reader == null
    ensures s.DirsHeld() == {} && s.FilesHeld() == {}
  {
  }
}
