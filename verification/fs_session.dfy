/**
 The block session: two handles, each a stream cut into numbered blocks, where the last block may
 be asked for again and again.
 */
module FsSession {
  import opened Words
  import opened FsNames
  import opened FsTree
  import opened FsBackend
  import opened FsReader
  import opened FsTar

  const HANDLES_MAX := 2
  const BLOCK_MAX := 3072
  const IDLE_MS := 30000
  const U32_LIMIT := 0x1_0000_0000

  const OK: u16 := 0
  const MALFORMED: u16 := 1
  const UNSUPPORTED: u16 := 2
  const BUSY: u16 := 4
  const RANGE: u16 := 6
  const INTERNAL: u16 := 7
  const NOT_FOUND: u16 := 0x100
  const NOT_READY: u16 := 0x101
  const BAD_HANDLE: u16 := 0x102
  const TYPE_ERROR: u16 := 0x103
  const IO_ERROR: u16 := 0x104
  const CHANGED: u16 := 0x105

  function WireStatus(rc: FsResult): (s: u16)
    ensures s == OK <==> rc == Ok
  {
    match rc
    case Ok => OK
    case Invalid => MALFORMED
    case OutOfRange => RANGE
    case NotFound => NOT_FOUND
    case NotReady => NOT_READY
    case TypeError => TYPE_ERROR
    case IoError => IO_ERROR
    case Changed => CHANGED
    case Busy => BUSY
    case Unsupported => UNSUPPORTED
  }

  // ----- A stream cut into blocks

  /** What is left of a stream after `n` blocks. */
  function Left(stream: Bytes, size: nat, n: nat): Bytes {
    if n == 0 then stream else After(Left(stream, size, n - 1), size)
  }

  function BlockAt(stream: Bytes, size: nat, n: nat): Bytes { Block(Left(stream, size, n), size) }

  /** Whether block `n` is marked as the last: a directory listing that ends on a full block takes one more, empty one. */
  predicate EndsAt(kind: u8, stream: Bytes, size: nat, n: nat) {
    var left := Left(stream, size, n);
    if kind == TREE_STREAM then |left| < size else |left| <= size
  }

  function Blocks(stream: Bytes, size: nat, n: nat): Bytes {
    if n == 0 then [] else Blocks(stream, size, n - 1) + BlockAt(stream, size, n - 1)
  }

  /** The blocks in order are the stream, with nothing lost or repeated. */
  lemma {:induction false} BlocksAreStream(stream: Bytes, size: nat, n: nat)
    ensures Blocks(stream, size, n) + Left(stream, size, n) == stream
  {
    if n > 0 {
      BlocksAreStream(stream, size, n - 1);
      var left := Left(stream, size, n - 1);
      assert left == BlockAt(stream, size, n - 1) + Left(stream, size, n);
    }
  }

  /** Reading up to the marked block gives the whole stream; every earlier block is full. */
  lemma EndIsWhole(kind: u8, stream: Bytes, size: nat, n: nat)
    requires EndsAt(kind, stream, size, n)
    ensures Blocks(stream, size, n + 1) == stream
  {
    BlocksAreStream(stream, size, n + 1);
  }

  lemma {:induction false} EarlierBlocksFull(kind: u8, stream: Bytes, size: nat, n: nat)
    requires !EndsAt(kind, stream, size, n)
    ensures |BlockAt(stream, size, n)| == size
  {
  }

  /** A stream of exactly one block: a listing takes a second, empty block to say that it has ended, anything else does not. */
  lemma ExactFill(kind: u8, stream: Bytes, size: nat)
    requires |stream| == size > 0
    ensures EndsAt(kind, stream, size, 0) <==> kind != TREE_STREAM
    ensures kind == TREE_STREAM ==> EndsAt(kind, stream, size, 1) && BlockAt(stream, size, 1) == []
  {
    assert Left(stream, size, 0) == stream && Left(stream, size, 1) == After(stream, size);
  }

  const ROOT: Bytes := ['v' as int, COLON, SLASH]
  const NAME: Bytes := ['a' as int]
  const RECORD := 15

  /** A disk with one empty file. */
  function OneFile(): Disk {
    map[ROOT := Dir([Child(NAME, File([], 0))]), ROOT + NAME := File([], 0)]
  }

  /** Its listing is one record, and exactly one block of the record's size. */
  lemma OneRecord()
    ensures Coherent(OneFile()) && ValidatePath(ROOT) == Path(ROOT)
    ensures OpeningOf(OneFile(), ROOT, TREE_STREAM, 0) == Ok && BarOf(OneFile(), ROOT, TREE_STREAM, 0) == Ok
    ensures var stream := StreamOf(OneFile(), ROOT, TREE_STREAM, 0);
      && stream == TreeRecord(NAME, File([], 0)) && |stream| == RECORD <= BLOCK_MAX
      && !EndsAt(TREE_STREAM, stream, RECORD, 0) && EndsAt(TREE_STREAM, stream, RECORD, 1) && BlockAt(stream, RECORD, 1) == []
  {
    hide TreeRecord, EndsAt, BlockAt, Component, ValidatePath;
    RootAccepted();
    NameAccepted();
    var file := File([], 0);
    var children := [Child(NAME, file)];
    assert Join(ROOT, NAME) == ROOT + NAME && Drop(ROOT + NAME, 3) == NAME && ROOT != ROOT + NAME;
    assert Preorder(ROOT, [], 1, false) == [];
    var visits := [Visit(ROOT + NAME, NAME, file, 1)];
    assert Preorder(ROOT, children, 1, false) == visits + ([] + []) == visits;
    assert Verdict(visits[0], false) == Ok && visits[1..] == [];
    assert Blocking([], false) == Ok;
    assert Blocking(visits, false) == Ok;
    assert TreeStream(visits, 3) == TreeRecord(NAME, file) + [];
    ExactFill(TREE_STREAM, TreeRecord(NAME, file), RECORD);
  }

  lemma RootAccepted()
    ensures ValidatePath(ROOT) == Path(ROOT)
  {
    assert VolumeLength(ROOT[1..]) == 0 && VolumeLength(ROOT) == 1;
    assert ROOT[3..] == [] && Split([]) == [[]];
  }

  lemma NameAccepted()
    ensures Component(NAME)
  {
    assert NAME[1..] == [];
  }

  /** The end is marked after finitely many blocks. */
  lemma {:induction false} EndComes(kind: u8, stream: Bytes, size: nat, n: nat) returns (k: nat)
    requires size > 0
    ensures n <= k && EndsAt(kind, stream, size, k)
    decreases |Left(stream, size, n)|
  {
    if EndsAt(kind, stream, size, n) {
      k := n;
    } else if |Left(stream, size, n)| == size {
      assert Left(stream, size, n + 1) == After(Left(stream, size, n), size) == [];
      k := n + 1;
    } else {
      k := EndComes(kind, stream, size, n + 1);
    }
  }

  // ----- Handles

  /** A reader with its stream ahead of it, or none with nothing left open. */
  method OpenReader(backend: Backend, path: Bytes, kind: u8, flags: u8) returns (rc: FsResult, r: Reader)
    requires backend.Valid()
    modifies backend
    ensures backend.Valid() && fresh(r) && fresh(r.stage)
    ensures r.backend == backend && r.root == path && r.kind == kind && r.flags == flags && r.Sound()
    ensures backend.dirs - Handles(r.dirs) == old(backend.dirs) && backend.files - r.FileHandles() == old(backend.files)
    ensures rc == Ok ==>
              && r.Valid() && r.Ahead() == StreamOf(backend.disk, path, kind, flags)
              && r.Obstacle() == BarOf(backend.disk, path, kind, flags)
              && r.totalSize == (if kind == FILE_STREAM then |r.Ahead()| else U64_LIMIT - 1)
    ensures rc != Ok ==> backend.dirs == old(backend.dirs) && backend.files == old(backend.files)
    ensures backend.Faultless() ==> rc == OpeningOf(backend.disk, path, kind, flags)
  {
    hide Stacked, Handles, Coherent, Pending, Coded, StreamOf, BarOf, OpeningOf, Reader.Obstacle, Reader.Ahead, Reader.Valid;
    MapMinusNone(backend.dirs);
    MapMinusNone(backend.files);
    r := new Reader(backend, path, kind, flags);
    NothingHeld(r);
    rc := r.Open();
    if rc != Ok {
      NothingHeld(r);
      MapMinusNone(backend.dirs);
      MapMinusNone(backend.files);
    }
  }

  /** What a handle was opened for, and the stream it stands for. */
  datatype Opened = Opened(openId: u32, kind: u8, flags: u8, requested: u16, path: Bytes, stream: Bytes,
                           bar: FsResult)
  {
    function BlockSize(): nat { if requested != 0 then requested else BLOCK_MAX }

    /** The size announced for the stream; a walk's is not known in advance. */
    function Total(): nat { if kind == FILE_STREAM then |stream| else U64_LIMIT - 1 }
  }

  class Slot {
    var handle: u32
    var openId: u32
    var activity: u32
    var lastBlock: u32
    var requested: u16
    var blockSize: u16
    var cachedSize: nat
    var terminal: u16
    var hasBlock: bool
    var eof: bool
    var reader: Reader?
    const cached: array<u8>
    ghost var grant: Opened

    constructor ()
      ensures handle == 0 && reader == null && fresh(cached) && cached.Length == BLOCK_MAX
    {
      handle, openId, activity, lastBlock, requested, blockSize, cachedSize, terminal := 0, 0, 0, 0, 0, 0, 0, 0;
      hasBlock, eof, reader := false, false, null;
      cached := new u8[BLOCK_MAX](_ => 0);
      grant := Opened(0, 0, 0, 0, [], [], Ok);
    }

    ghost function Own(): set<object>
      reads this
    {
      {this, cached} + if reader != null then {reader, reader.stage} else {}
    }

    ghost function DirsHeld(): set<nat>
      reads this, reader
    {
      if reader != null then Handles(reader.dirs) else {}
    }

    ghost function FilesHeld(): set<nat>
      reads this, reader
    {
      if reader != null then reader.FileHandles() else {}
    }

    /** The slot's fields are those of the request it was opened by. */
    ghost predicate Named()
      reads this, reader
      requires reader != null
    {
      && openId == grant.openId && requested == grant.requested && blockSize == grant.BlockSize() && 0 < blockSize <= BLOCK_MAX
      && reader.kind == grant.kind && reader.flags == grant.flags && reader.root == grant.path
      && reader.totalSize == grant.Total()
    }

    /** The cached block is the last one served, and the reader stands right behind it. */
    ghost predicate InOrder(backend: Backend)
      reads this, cached, backend
      reads if reader != null then {reader, reader.stage} else {}
      requires reader != null && reader.backend == backend && reader.Valid()
    {
      && reader.Obstacle() == grant.bar
      && reader.Ahead() == Left(grant.stream, blockSize, if hasBlock then lastBlock + 1 else 0)
      && (hasBlock ==>
            && cachedSize <= cached.Length && cached[..cachedSize] == BlockAt(grant.stream, blockSize, lastBlock)
            && eof == EndsAt(grant.kind, grant.stream, blockSize, lastBlock))
    }

    ghost predicate Good(backend: Backend)
      reads this, cached, backend
      reads if reader != null then {reader, reader.stage} else {}
    {
      && cached.Length == BLOCK_MAX
      && (handle == 0 <==> reader == null)
      && (reader != null ==>
            && reader.backend == backend && reader.Sound() && Named() && cached != reader.stage
            && (if terminal == 0 then reader.Valid() && InOrder(backend) else reader.dirs == [] && reader.file == None))
    }

    /** Frees the slot and whatever its reader still holds open. */
    method Release(backend: Backend)
      requires Good(backend) && backend.Valid()
      modifies this, reader, backend`dirs, backend`files
      ensures handle == 0 && reader == null && Good(backend) && backend.Valid()
      ensures backend.dirs == old(backend.dirs - DirsHeld()) && backend.files == old(backend.files - FilesHeld())
    {
      MapMinusNone(backend.dirs);
      MapMinusNone(backend.files);
      if handle != 0 {
        reader.Close();
      }
      Reset();
    }

    /** Opens a stream in a free slot. */
    method Admit(backend: Backend, id: u32, path: Bytes, kind: u8, flags: u8, size: u16, number: u32) returns (status: u16)
      requires Good(backend) && handle == 0 && backend.Valid() && number != 0 && size <= BLOCK_MAX
      modifies this, backend
      ensures Good(backend) && backend.Valid()
      ensures backend.dirs - DirsHeld() == old(backend.dirs) && backend.files - FilesHeld() == old(backend.files)
      ensures if status == OK then
                && reader != null && fresh(reader) && fresh(reader.stage) && handle == number && !hasBlock && terminal == 0
                && grant == Opened(id, kind, flags, size, path, StreamOf(backend.disk, path, kind, flags),
                                   BarOf(backend.disk, path, kind, flags))
              else handle == 0 && reader == null
      ensures backend.Faultless() ==> status == WireStatus(OpeningOf(backend.disk, path, kind, flags))
    {
      hide Handles, StreamOf, BarOf, OpeningOf, Reader.Obstacle, Reader.Valid, Reader.Sound, Reader.Ahead, Good;
      MapMinusNone(backend.dirs);
      MapMinusNone(backend.files);
      CachedSize(backend);
      var rc, r := OpenReader(backend, path, kind, flags);
      status := WireStatus(rc);
      if rc != Ok {
        Reset();
        FreeIsGood(backend);
        return;
      }
      grant := Opened(id, kind, flags, size, path, StreamOf(backend.disk, path, kind, flags), BarOf(backend.disk, path, kind, flags));
      Install(backend, r, number, id, size);
    }

    lemma CachedSize(backend: Backend)
      requires Good(backend)
      ensures cached.Length == BLOCK_MAX
    {
    }

    lemma FreeIsGood(backend: Backend)
      requires handle == 0 && reader == null && cached.Length == BLOCK_MAX
      ensures Good(backend)
    {
    }

    method Reset()
      modifies this
      ensures handle == 0 && reader == null
    {
      handle, openId, activity, lastBlock, requested, blockSize, cachedSize, terminal := 0, 0, 0, 0, 0, 0, 0, 0;
      hasBlock, eof, reader := false, false, null;
    }

    /** Puts a freshly opened reader into the slot, with no block served yet. */
    method Install(backend: Backend, r: Reader, number: u32, id: u32, size: u16)
      requires number != 0 && id == grant.openId && size == grant.requested && r.backend == backend && r.Valid() && cached != r.stage && cached.Length == BLOCK_MAX
      requires r.kind == grant.kind && r.flags == grant.flags && r.root == grant.path && grant.requested <= BLOCK_MAX
      requires r.Ahead() == grant.stream && r.Obstacle() == grant.bar && r.totalSize == grant.Total()
      modifies this
      ensures Good(backend) && reader == r && handle == number && !hasBlock && terminal == 0 && grant == old(grant)
    {
      hide Reader.Valid, Reader.Sound, Reader.Ahead, Reader.Obstacle, Good;
      reader, handle, lastBlock, cachedSize, terminal, hasBlock, eof := r, number, 0, 0, 0, false, false;
      openId, requested := id, size;
      blockSize := if size != 0 then size else BLOCK_MAX;
      InstalledIsGood(backend);
    }

    lemma InstalledIsGood(backend: Backend)
      requires reader != null && reader.backend == backend && reader.Valid() && cached != reader.stage && cached.Length == BLOCK_MAX
      requires handle != 0 && terminal == 0 && !hasBlock && Named() && reader.Ahead() == grant.stream && reader.Obstacle() == grant.bar
      ensures Good(backend)
    {
      ValidIsSound(reader);
      hide Reader.Valid, Reader.Sound, Reader.Ahead, Reader.Obstacle;
    }

    twostate predicate Untouched()
      reads this, cached
      reads if reader != null then {reader, reader.stage} else {}
    {
      unchanged(this) && unchanged(cached) && (reader != null ==> unchanged(reader) && unchanged(reader.stage))
    }

    /** A slot that nobody touched stays as it was, as long as its handles do. */
    twostate lemma Kept(backend: Backend)
      requires old(Good(backend)) && backend.Valid() && Untouched()
      requires HeldSame(old(backend.dirs), backend.dirs, DirsHeld())
      requires HeldSame(old(backend.files), backend.files, FilesHeld())
      ensures Good(backend)
    {
      hide Reader.Valid, Reader.Sound, Reader.Ahead, Reader.Obstacle, Left, EndsAt, BlockAt, Handles;
      if reader != null {
        ReaderKept(reader);
      }
    }

    method Stamp(backend: Backend, now: u32)
      requires Good(backend)
      modifies this`activity
      ensures Good(backend) && DirsHeld() == old(DirsHeld()) && FilesHeld() == old(FilesHeld()) && activity == now
    {
      hide Reader.Valid, Reader.Sound, Reader.Ahead, Reader.Obstacle;
      activity := now;
    }

    /** Whether block `n` can be asked for: the one served last, or the next one before the end. */
    predicate InTurn(n: u32)
      reads this
    {
      if hasBlock then n == lastBlock || (!eof && lastBlock < U32_LIMIT - 1 && n == lastBlock + 1) else n == 0
    }

    /** Reads the next block into the cache; the slot's own fields are still those of the block before. */
    method Load(backend: Backend) returns (rc: FsResult, size: nat, end: bool)
      requires Good(backend) && handle != 0 && terminal == 0
      modifies cached, reader, reader.stage, backend
      ensures backend.Valid() && reader != null && reader.backend == backend && reader.Sound() && Named() && cached != reader.stage
      ensures backend.dirs - DirsHeld() == old(backend.dirs - DirsHeld())
      ensures backend.files - FilesHeld() == old(backend.files - FilesHeld())
      ensures rc == Ok ==>
                && reader.Valid() && size <= cached.Length && cached[..size] == Block(old(reader.Ahead()), blockSize)
                && reader.Ahead() == After(old(reader.Ahead()), blockSize) && reader.Obstacle() == grant.bar
                && end == (if grant.kind == TREE_STREAM then |old(reader.Ahead())| < blockSize else |old(reader.Ahead())| <= blockSize)
      ensures rc != Ok ==> reader.dirs == [] && reader.file == None
      ensures backend.Faultless() && grant.bar == Ok ==> rc == Ok
    {
      hide Handles, Reader.Ahead, Reader.Obstacle, Reader.Valid, Reader.Sound, Good, EndsAt, Block, After, Left, BlockAt;
      InUse(backend);
      rc, size, end := reader.Read(cached, blockSize);
      SoundBackend(reader);
    }

    /** Reads the block after the last one served; an error is final. */
    method Fetch(backend: Backend, n: u32) returns (status: u16)
      requires Good(backend) && handle != 0 && backend.Valid() && terminal == 0
      requires n == if hasBlock then lastBlock + 1 else 0
      modifies this`lastBlock, this`hasBlock, this`cachedSize, this`eof, this`terminal, cached, reader, reader.stage, backend
      ensures Good(backend) && backend.Valid()
      ensures backend.dirs - DirsHeld() == old(backend.dirs - DirsHeld())
      ensures backend.files - FilesHeld() == old(backend.files - FilesHeld())
      ensures if status == OK then terminal == 0 && hasBlock && lastBlock == n else terminal == status != BUSY
      ensures backend.Faultless() && grant.bar == Ok ==> status == OK
      ensures unchanged(this`handle, this`reader, this`blockSize, this`grant, this`activity)
    {
      hide Handles, Reader.Ahead, Reader.Obstacle, Reader.Valid, Reader.Sound, Good, EndsAt, Block, After, Left, BlockAt;
      InUse(backend);
      var rc, size, end := Load(backend);
      if rc != Ok {
        status := WireStatus(rc);
        if status == BUSY {
          status := IO_ERROR;
        }
        terminal := status;
        ClosedIsGood(backend);
        return;
      }
      NextLeft(grant.stream, blockSize, n);
      EndIs(grant.kind, grant.stream, blockSize, n);
      BlockIs(grant.stream, blockSize, n);
      lastBlock, hasBlock, cachedSize, eof := n, true, size, end;
      status := OK;
      ServedIsGood(backend);
    }

    /** What a slot in use is known by. */
    lemma InUse(backend: Backend)
      requires Good(backend) && handle != 0 && terminal == 0
      ensures cached.Length == BLOCK_MAX && reader != null && reader.backend == backend && reader.Valid() && cached != reader.stage
      ensures Named() && InOrder(backend)
    {
      hide Reader.Valid, Reader.Sound, Reader.Ahead, Reader.Obstacle;
    }

    lemma ServedIsGood(backend: Backend)
      requires reader != null && reader.backend == backend && reader.Valid() && cached != reader.stage && cached.Length == BLOCK_MAX
      requires handle != 0 && terminal == 0 && Named() && InOrder(backend)
      ensures Good(backend)
    {
      ValidIsSound(reader);
      hide Reader.Valid, Reader.Sound, Reader.Ahead, Reader.Obstacle;
    }

    lemma ClosedIsGood(backend: Backend)
      requires reader != null && reader.backend == backend && reader.Sound() && cached != reader.stage && cached.Length == BLOCK_MAX
      requires handle != 0 && terminal != 0 && Named() && reader.dirs == [] && reader.file == None
      ensures Good(backend)
    {
      hide Reader.Valid, Reader.Sound, Reader.Ahead, Reader.Obstacle;
    }

    /** Serves block `n` from the cache, or reads it. */
    method ReadBlock(backend: Backend, n: u32, capacity: nat) returns (status: u16)
      requires Good(backend) && handle != 0 && backend.Valid()
      modifies this`lastBlock, this`hasBlock, this`cachedSize, this`eof, this`terminal, cached, reader, reader.stage, backend
      ensures Good(backend) && backend.Valid()
      ensures backend.dirs - DirsHeld() == old(backend.dirs - DirsHeld())
      ensures backend.files - FilesHeld() == old(backend.files - FilesHeld())
      ensures status == OK ==> capacity >= blockSize + 12 && terminal == 0 && hasBlock && lastBlock == n
      ensures capacity < blockSize + 12 ==> status == INTERNAL
      ensures capacity >= blockSize + 12 && old(terminal) != 0 ==> status == old(terminal)
      ensures capacity >= blockSize + 12 && old(terminal) == 0 && !old(InTurn(n)) ==> status == RANGE && terminal == 0
      ensures capacity >= blockSize + 12 && old(terminal) == 0 && old(InTurn(n)) && status != OK ==>
                terminal == status != BUSY && !(old(hasBlock) && n == old(lastBlock)) && !(backend.Faultless() && grant.bar == Ok)
      ensures unchanged(this`handle, this`reader, this`blockSize, this`grant, this`activity)
      ensures (status != OK && terminal == old(terminal)) || (old(hasBlock) && n == old(lastBlock)) ==>
                backend.tick == old(backend.tick) && unchanged(this)
    {
      hide Good;
      if capacity < blockSize + 12 {
        return INTERNAL;
      }
      if terminal != 0 {
        return terminal;
      }
      if hasBlock && n == lastBlock {
        return OK;
      }
      if (!hasBlock && n != 0) || (hasBlock && (eof || lastBlock == U32_LIMIT - 1 || n != lastBlock + 1)) {
        return RANGE;
      }
      status := Fetch(backend, n);
    }

    /** What a slot that has served a block holds. */
    lemma CachedIs(backend: Backend)
      requires Good(backend) && handle != 0 && terminal == 0 && hasBlock
      ensures cachedSize <= cached.Length && cachedSize <= blockSize
      ensures cached[..cachedSize] == BlockAt(grant.stream, blockSize, lastBlock)
      ensures eof == EndsAt(grant.kind, grant.stream, blockSize, lastBlock)
    {
    }
  }

  lemma NothingHeld(r: Reader)
    requires r.dirs == [] && r.file == None
    ensures Handles(r.dirs) == {} && r.FileHandles() == {}
  {
  }

  lemma ValidIsSound(r: Reader)
    requires r.Valid()
    ensures r.Sound()
  {
  }

  lemma SoundBackend(r: Reader)
    requires r.Sound()
    ensures r.backend.Valid()
  {
  }

  lemma BlockIs(stream: Bytes, size: nat, n: nat)
    ensures Block(Left(stream, size, n), size) == BlockAt(stream, size, n)
  {
  }

  lemma NextLeft(stream: Bytes, size: nat, n: nat)
    ensures Left(stream, size, n + 1) == After(Left(stream, size, n), size)
  {
  }

  lemma EndIs(kind: u8, stream: Bytes, size: nat, n: nat)
    ensures EndsAt(kind, stream, size, n) ==
            (if kind == TREE_STREAM then |Left(stream, size, n)| < size else |Left(stream, size, n)| <= size)
  {
  }

  /** Handles that mean the same before and after. */
  ghost predicate HeldSame<V>(before: map<nat, V>, after: map<nat, V>, held: set<nat>) {
    forall h :: h in held ==> h in before && h in after && after[h] == before[h]
  }

  /** A reader that nobody touched stays as it was, as long as its handles do. */
  twostate lemma ReaderKept(r: Reader)
    requires old(r.Sound()) && r.backend.Valid() && unchanged(r) && unchanged(r.stage)
    requires HeldSame(old(r.backend.dirs), r.backend.dirs, Handles(r.dirs))
    requires HeldSame(old(r.backend.files), r.backend.files, r.FileHandles())
    ensures r.Sound() && (old(r.Valid()) ==> r.Valid() && r.Ahead() == old(r.Ahead()) && r.Obstacle() == old(r.Obstacle()))
  {
    hide Coherent, Stacked, Handles, Coded, Pending, Zeros, PaddingOf, Blocking;
    StackedOwns(r.backend.disk, old(r.backend.dirs), r.dirs, r.levels, r.path);
    StackedKept(r.backend.disk, old(r.backend.dirs), r.backend.dirs, r.dirs, r.levels, r.path);
    assert r.file.Some? ==> r.file.value in r.FileHandles();
  }

  lemma StackedKept(disk: Disk, open: map<nat, seq<Child>>, after: map<nat, seq<Child>>, slots: seq<DirSlot>,
                    levels: seq<Level>, path: Bytes)
    requires Stacked(disk, open, slots, levels, path)
    requires HeldSame(open, after, Handles(slots))
    ensures Stacked(disk, after, slots, levels, path)
  {
    assert forall i :: 0 <= i < |slots| ==> slots[i].handle in Handles(slots);
  }

  lemma StackedOwns(disk: Disk, open: map<nat, seq<Child>>, slots: seq<DirSlot>, levels: seq<Level>, path: Bytes)
    requires Stacked(disk, open, slots, levels, path)
    ensures forall h :: h in Handles(slots) ==> h in open
  {
  }

  // ----- Two slots over one backend

  ghost predicate Distinct(s: Slot, t: Slot)
    reads s, t
  {
    && s != t && s.cached != t.cached
    && (s.reader != null && t.reader != null ==> s.reader != t.reader && s.reader.stage != t.reader.stage)
    && (s.reader != null ==> s.reader.stage != t.cached) && (t.reader != null ==> t.reader.stage != s.cached)
  }

  ghost predicate Apart(s: Slot, t: Slot)
    reads s, t, s.reader, t.reader
  {
    Distinct(s, t) && s.DirsHeld() !! t.DirsHeld() && s.FilesHeld() !! t.FilesHeld()
  }

  /** Between them the slots hold every handle that is open, and no handle twice. */
  ghost predicate Sharing(s: Slot, t: Slot, backend: Backend)
    reads s, t, s.cached, t.cached, backend
    reads if s.reader != null then {s.reader, s.reader.stage} else {}
    reads if t.reader != null then {t.reader, t.reader.stage} else {}
  {
    && backend.Valid() && s.Good(backend) && t.Good(backend) && Apart(s, t)
    && backend.dirs.Keys == s.DirsHeld() + t.DirsHeld()
    && backend.files.Keys == s.FilesHeld() + t.FilesHeld()
  }

  lemma SharingSwaps(s: Slot, t: Slot, backend: Backend)
    requires Sharing(s, t, backend)
    ensures Sharing(t, s, backend)
  {
    hide Slot.Good, Slot.DirsHeld, Slot.FilesHeld;
  }

  lemma HeldIsOpen(s: Slot, backend: Backend)
    requires s.Good(backend)
    ensures s.DirsHeld() <= backend.dirs.Keys && s.FilesHeld() <= backend.files.Keys
  {
    if s.reader != null {
      StackedOwns(backend.disk, backend.dirs, s.reader.dirs, s.reader.levels, s.reader.path);
    }
  }

  lemma AsideSame<V>(before: map<nat, V>, after: map<nat, V>, mine: set<nat>, now: set<nat>, other: set<nat>)
    requires after - now == before - mine && before.Keys == mine + other && mine !! other && now <= after.Keys
    ensures after.Keys == now + other && now !! other
    ensures HeldSame(before, after, other)
  {
    forall h | h in other ensures h in before && h in after && after[h] == before[h] && h !in now {
      assert h in before - mine;
      assert h in after - now;
    }
    forall h | h in after ensures h in now + other {
      if h !in now {
        assert h in after - now;
        assert h in before - mine;
      }
    }
  }
}
