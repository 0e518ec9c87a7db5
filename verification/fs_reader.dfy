/**
 The resumable reader: one file, or a walk over a directory tree, cut into blocks of any size.
 Whatever has been emitted and whatever is still ahead always add up to the whole stream.
 */
module FsReader {
  import opened Words
  import opened Buffers
  import opened FsNames
  import opened FsTree
  import opened FsTar
  import opened FsStage
  import opened FsBackend

  const FILE_STREAM: u8 := 1
  const TREE_STREAM: u8 := 2
  const TAR_STREAM: u8 := 3

  datatype Phase = Walk | FileData | FilePadding | Finished

  datatype DirSlot = DirSlot(handle: nat, pathLength: nat)

  function Handles(slots: seq<DirSlot>): set<nat> { set i | 0 <= i < |slots| :: slots[i].handle }

  lemma HandlesPush(slots: seq<DirSlot>, s: DirSlot)
    ensures Handles(slots + [s]) == Handles(slots) + {s.handle}
  {
    var all := slots + [s];
    assert all[|slots|] == s;
    assert forall i :: 0 <= i < |slots| ==> all[i] == slots[i];
  }

  lemma HandlesPop(slots: seq<DirSlot>)
    requires slots != [] && forall i, j :: 0 <= i < j < |slots| ==> slots[i].handle != slots[j].handle
    ensures var n := |slots| - 1; Handles(slots[..n]) == Handles(slots) - {slots[n].handle}
  {
    var n := |slots| - 1;
    var fewer := slots[..n];
    assert forall i :: 0 <= i < n ==> fewer[i] == slots[i];
  }

  lemma AsideClosed<V>(m: map<nat, V>, own: set<nat>, h: nat)
    requires h in own
    ensures (m - {h}) - (own - {h}) == m - own
  {
  }

  lemma AsideOpened<V>(m: map<nat, V>, own: set<nat>, h: nat, v: V)
    requires h !in m
    ensures m[h := v] - (own + {h}) == m - own
  {
  }

  lemma AsideMoved<V>(m: map<nat, V>, own: set<nat>, h: nat, v: V)
    requires h in own
    ensures m[h := v] - own == m - own
  {
  }

  /** Each open directory is where the walk left it, and the path buffer spells out all of them. */
  ghost predicate Stacked(disk: Disk, open: map<nat, seq<Child>>, slots: seq<DirSlot>, levels: seq<Level>, path: Bytes) {
    && |slots| == |levels| <= MAX_DEPTH
    && (forall i :: 0 <= i < |slots| ==>
          && slots[i].handle in open && open[slots[i].handle] == levels[i].rest
          && slots[i].pathLength == |levels[i].path| && levels[i].path <= path
          && Nested(disk, levels[i].path, levels[i].rest))
    && (forall i, j :: 0 <= i < j < |slots| ==> slots[i].handle != slots[j].handle && levels[i].path <= levels[j].path)
  }

  lemma StackSizes(disk: Disk, open: map<nat, seq<Child>>, slots: seq<DirSlot>, levels: seq<Level>, path: Bytes)
    requires Stacked(disk, open, slots, levels, path)
    ensures |slots| == |levels| <= MAX_DEPTH
  {
  }

  lemma StackedTop(disk: Disk, open: map<nat, seq<Child>>, slots: seq<DirSlot>, levels: seq<Level>, path: Bytes)
    requires Stacked(disk, open, slots, levels, path) && slots != []
    ensures var n := |slots| - 1;
      && |levels| == |slots| && slots[n].handle in open && open[slots[n].handle] == levels[n].rest
      && slots[n].handle in Handles(slots)
      && slots[n].pathLength <= |path| && path[..slots[n].pathLength] == levels[n].path
      && Stacked(disk, open, slots, levels, levels[n].path)
  {
    var n := |slots| - 1;
    forall i | 0 <= i < |slots| ensures levels[i].path <= levels[n].path { assert i == n || i < n; }
  }

  lemma StackedRead(disk: Disk, open: map<nat, seq<Child>>, slots: seq<DirSlot>, levels: seq<Level>, path: Bytes)
    requires Stacked(disk, open, slots, levels, path) && slots != [] && levels[|slots| - 1].rest != []
    ensures var n := |slots| - 1;
      var top := levels[n];
      var c := top.rest[0];
      && Stacked(disk, open[slots[n].handle := top.rest[1..]], slots, levels[n := top.(rest := top.rest[1..])], path)
      && CName(c.name) && Join(top.path, c.name) in disk && disk[Join(top.path, c.name)] == c.node
  {
    var n := |slots| - 1;
    var rest := levels[n].rest;
    assert rest[0] == levels[n].rest[0];
    assert forall i :: 0 <= i < |rest| - 1 ==> rest[1..][i] == rest[i + 1];
  }

  lemma StackedPop(disk: Disk, open: map<nat, seq<Child>>, slots: seq<DirSlot>, levels: seq<Level>, path: Bytes)
    requires Stacked(disk, open, slots, levels, path) && slots != []
    ensures var n := |slots| - 1;
      && Stacked(disk, open - {slots[n].handle}, slots[..n], levels[..n], path)
      && Handles(slots[..n]) == Handles(slots) - {slots[n].handle}
  {
    HandlesPop(slots);
  }

  lemma StackedPush(disk: Disk, open: map<nat, seq<Child>>, slots: seq<DirSlot>, levels: seq<Level>, path: Bytes, h: nat,
                    children: seq<Child>)
    requires Stacked(disk, open, slots, levels, path) && h !in open && |slots| < MAX_DEPTH && Nested(disk, path, children)
    ensures Stacked(disk, open[h := children], slots + [DirSlot(h, |path|)], levels + [Level(path, children)], path)
    ensures Handles(slots + [DirSlot(h, |path|)]) == Handles(slots) + {h}
  {
    HandlesPush(slots, DirSlot(h, |path|));
  }

  lemma StackedDeeper(disk: Disk, open: map<nat, seq<Child>>, slots: seq<DirSlot>, levels: seq<Level>, path: Bytes, longer: Bytes)
    requires Stacked(disk, open, slots, levels, path) && path <= longer
    ensures Stacked(disk, open, slots, levels, longer)
  {
  }

  lemma StackedNone(disk: Disk, open: map<nat, seq<Child>>, path: Bytes)
    ensures Stacked(disk, open, [], [], path) && Handles([]) == {}
  {
  }

  /** The bytes of a whole walk still to come. */
  function Coded(kind: u8, visits: seq<Visit>, base: nat): Bytes {
    if kind == TREE_STREAM then TreeStream(visits, base) else TarStream(visits, base)
  }

  /** The next block of a stream, and what the stream is after it. */
  function Block(ahead: Bytes, capacity: nat): Bytes { if |ahead| <= capacity then ahead else ahead[..capacity] }

  function After(ahead: Bytes, capacity: nat): Bytes { if |ahead| <= capacity then [] else ahead[capacity..] }

  class Reader {
    const backend: Backend
    const root: Bytes
    const kind: u8
    const flags: u8
    const stage: array<u8>
    var path: Bytes
    var base: nat
    var dirs: seq<DirSlot>
    var file: Option<nat>
    var info: Info
    var totalSize: u64
    var remaining: nat
    var padding: nat
    var stageSize: nat
    var stageOffset: nat
    var phase: Phase
    /** The open directories as the tree knows them. */
    ghost var levels: seq<Level>

    function Deep(): bool { kind == TAR_STREAM || flags % 2 == 1 }

    /** The handles this reader holds. */
    function FileHandles(): set<nat>
      reads this
    {
      if file.Some? then {file.value} else {}
    }

    ghost predicate Sound()
      reads this, backend
    {
      && backend.Valid() && stage.Length == STAGE_SIZE && Stacked(backend.disk, backend.dirs, dirs, levels, path)
      && (file.Some? ==> file.value in backend.files)
    }

    /** The file being sent is the one the path names, read as far as `remaining` says. */
    ghost predicate Sending()
      reads `file, `path, `info, `remaining, backend
    {
      && file.Some? && file.value in backend.files && path in backend.disk && backend.disk[path].File?
      && info == InfoOf(backend.disk[path])
      && backend.files[file.value].contents == backend.disk[path].contents
      && backend.files[file.value].pos + remaining == |backend.disk[path].contents|
    }

    ghost predicate Valid()
      reads this, backend
    {
      && Sound() && FILE_STREAM <= kind <= TAR_STREAM
      && stageOffset <= stageSize <= STAGE_SIZE
      && (kind == FILE_STREAM ==> levels == [] && (phase == FileData || phase == Finished))
      && (kind == TREE_STREAM ==> phase == Walk || phase == Finished)
      && (phase == Finished ==> levels == [])
      && (kind == FILE_STREAM || (kind == TREE_STREAM && phase == Finished) ==> stageOffset == stageSize)
      && (if phase == FileData then Sending() else file == None)
    }

    ghost function Coming(): Bytes
      reads `levels, `base
    {
      Coded(kind, Pending(levels, Deep()), base)
    }

    ghost function Behind(): Bytes
      reads `phase, `file, `path, `info, `remaining, `padding, `levels, `base, backend
      requires phase == FileData ==> Sending()
    {
      match phase
      case Finished => []
      case Walk => Coming()
      case FilePadding => Zeros(padding) + Coming()
      case FileData =>
        var f := backend.files[file.value];
        f.contents[f.pos..] + if kind == FILE_STREAM then [] else Zeros(PaddingOf(info.size)) + Coming()
    }

    /** Everything the reader has yet to emit. */
    ghost function Ahead(): Bytes
      reads this, backend, stage
      requires Valid()
    {
      stage[stageOffset..stageSize] + Behind()
    }

    /** What the rest of the world holds open: everything but this reader's own handles. */
    ghost function Aside(): (map<nat, seq<Child>>, map<nat, OpenFile>)
      reads this, backend
    {
      (backend.dirs - Handles(dirs), backend.files - FileHandles())
    }

    ghost predicate AsideKept(aside: (map<nat, seq<Child>>, map<nat, OpenFile>))
      reads this, backend
    {
      Aside() == aside
    }

    /** What will stop the walk, if anything will. */
    ghost function Obstacle(): FsResult
      reads this
    {
      Blocking(Pending(levels, Deep()), Deep())
    }

    constructor (backend: Backend, root: Bytes, kind: u8, flags: u8)
      requires backend.Valid()
      ensures this.backend == backend && this.root == root && this.kind == kind && this.flags == flags
      ensures fresh(stage) && Sound() && dirs == [] && file == None && path == root && levels == []
      ensures stageOffset == stageSize == 0
      ensures base == |root| + if root != [] && root[|root| - 1] != SLASH then 1 else 0
    {
      this.backend, this.root, this.kind, this.flags := backend, root, kind, flags;
      stage := new u8[STAGE_SIZE](_ => 0);
      path, dirs, levels, file, info := root, [], [], None, Info(0, 0, 0);
      base := |root| + if root != [] && root[|root| - 1] != SLASH then 1 else 0;
      totalSize, remaining, padding, stageSize, stageOffset, phase := 0, 0, 0, 0, 0, Walk;
    }

    method Close()
      requires Sound()
      modifies this`file, this`dirs, this`levels, this`phase, backend`dirs, backend`files
      ensures Sound() && dirs == [] && levels == [] && file == None && phase == Finished
      ensures backend.dirs == old(backend.dirs - Handles(dirs))
      ensures backend.files == old(backend.files - FileHandles())
    {
      hide Stacked, Handles, Coherent;
      if file.Some? {
        backend.FileClose(file.value);
      }
      file := None;
      StackSizes(backend.disk, backend.dirs, dirs, levels, path);
      ghost var aside := backend.dirs - Handles(dirs);
      while |dirs| > 0
        invariant Sound() && file == None && |levels| == |dirs|
        invariant backend.dirs - Handles(dirs) == aside
        invariant backend.files == old(backend.files - FileHandles())
        decreases |dirs|
      {
        CloseTop();
      }
      StackedNone(backend.disk, backend.dirs, path);
      assert backend.dirs - {} == backend.dirs;
      phase := Finished;
    }

    /** Closes the innermost directory. */
    method CloseTop()
      requires Sound() && dirs != []
      modifies this`dirs, this`levels, backend`dirs
      ensures Sound() && |old(levels)| == |old(dirs)|
      ensures dirs == old(dirs)[..|old(dirs)| - 1] && levels == old(levels)[..|old(dirs)| - 1]
      ensures backend.dirs - Handles(dirs) == old(backend.dirs - Handles(dirs))
    {
      hide Stacked, Handles, Coherent;
      var n := |dirs| - 1;
      StackedTop(backend.disk, backend.dirs, dirs, levels, path);
      StackedPop(backend.disk, backend.dirs, dirs, levels, path);
      AsideClosed(backend.dirs, Handles(dirs), dirs[n].handle);
      backend.DirClose(dirs[n].handle);
      dirs, levels := dirs[..n], levels[..n];
    }

    /** One directory read: the next child of the innermost directory, or the end of it. */
    method ReadTop() returns (rc: FsResult, name: Bytes)
      requires Sound() && dirs != []
      modifies this`path, this`info, this`levels, backend`tick, backend`dirs
      ensures Sound() && |levels| == |dirs| == |old(levels)|
      ensures backend.dirs - Handles(dirs) == old(backend.dirs - Handles(dirs))
      ensures path == levels[|dirs| - 1].path == old(levels)[|dirs| - 1].path
      ensures backend.Faultless() ==> rc == Ok
      ensures rc == Ok ==>
                var n := |dirs| - 1;
                var top := old(levels)[n];
                if top.rest == [] then name == [] && levels == old(levels)
                else && name == top.rest[0].name && info == InfoOf(top.rest[0].node)
                     && levels == old(levels)[n := top.(rest := top.rest[1..])]
                     && CName(name) && Join(top.path, name) in backend.disk && backend.disk[Join(top.path, name)] == top.rest[0].node
    {
      hide Stacked, Handles, Coherent, CName, Join;
      var n := |dirs| - 1;
      var h := dirs[n].handle;
      StackedTop(backend.disk, backend.dirs, dirs, levels, path);
      path := path[..dirs[n].pathLength];
      ghost var top := levels[n];
      if top.rest != [] {
        StackedRead(backend.disk, backend.dirs, dirs, levels, path);
        AsideMoved(backend.dirs, Handles(dirs), h, top.rest[1..]);
      }
      var described;
      rc, name, described := backend.DirRead(h);
      if rc == Ok {
        info := described;
        if top.rest != [] {
          levels := levels[n := top.(rest := top.rest[1..])];
        }
      }
    }

    /** Descends into the directory the path names. */
    method Descend() returns (rc: FsResult)
      requires Sound() && |dirs| < MAX_DEPTH && path in backend.disk && backend.disk[path].Dir?
      modifies this`dirs, this`levels, backend`tick, backend`next, backend`dirs
      ensures Sound() && backend.dirs - Handles(dirs) == old(backend.dirs - Handles(dirs))
      ensures backend.Faultless() ==> rc == Ok
      ensures levels == if rc == Ok then old(levels) + [Level(path, backend.disk[path].children)] else old(levels)
    {
      hide Stacked, Handles;
      ghost var children := backend.disk[path].children;
      StackSizes(backend.disk, backend.dirs, dirs, levels, path);
      assert backend.next !in backend.dirs;
      StackedPush(backend.disk, backend.dirs, dirs, levels, path, backend.next, children);
      AsideOpened(backend.dirs, Handles(dirs), backend.next, children);
      var h;
      rc, h := backend.DirOpen(path);
      if rc == Ok {
        dirs := dirs + [DirSlot(h, |path|)];
        levels := levels + [Level(path, children)];
      }
    }

    /** The entry the path and the info buffer describe. */
    ghost predicate Describes(v: Visit)
      reads this
    {
      && path == v.path && |path| < PATH_CAPACITY && info == InfoOf(v.node)
      && path in backend.disk && backend.disk[path] == v.node && Verdict(v, Deep()) == Ok
    }

    /** Judges one child of the innermost directory and, where the walk goes deep, opens it. */
    method Enter(name: Bytes, ghost v: Visit) returns (rc: FsResult)
      requires Sound() && dirs != [] && path == levels[|dirs| - 1].path
      requires v == Visit(Join(path, name), name, v.node, |dirs|) && info == InfoOf(v.node)
      requires v.path in backend.disk && backend.disk[v.path] == v.node
      modifies this`path, this`dirs, this`levels, backend`tick, backend`next, backend`dirs
      ensures Sound() && backend.dirs - Handles(dirs) == old(backend.dirs - Handles(dirs))
      ensures rc == Ok ==>
                && Describes(v)
                && levels == if Deep() && v.node.Dir? then old(levels) + [Level(v.path, v.node.children)] else old(levels)
      ensures rc != Ok && backend.Faultless() ==> rc == Verdict(v, Deep())
    {
      hide Stacked, Handles, Component;
      StackSizes(backend.disk, backend.dirs, dirs, levels, path);
      var component := CheckComponent(name);
      if !component {
        return Invalid;
      }
      var parent := path;
      if |parent| > 0 && parent[|parent| - 1] != SLASH {
        if |parent| + 1 >= PATH_CAPACITY {
          return OutOfRange;
        }
        parent := parent + [SLASH];
      }
      if |parent| + |name| >= PATH_CAPACITY {
        return OutOfRange;
      }
      StackedDeeper(backend.disk, backend.dirs, dirs, levels, path, parent + name);
      path := parent + name;
      assert path == v.path;
      rc := Ok;
      DiskTypes(backend.disk, path);
      if info.type_ == ENTRY_DIR && (kind == TAR_STREAM || flags % 2 == 1) {
        if |dirs| == MAX_DEPTH {
          return OutOfRange;
        }
        rc := Descend();
      } else if info.type_ != ENTRY_FILE && info.type_ != ENTRY_DIR {
        rc := Unsupported;
      }
    }

    /** Advances the walk by one entry, closing the directories it leaves. */
    method NextEntry() returns (rc: FsResult, done: bool, ghost v: Visit)
      requires Sound()
      modifies this`path, this`info, this`dirs, this`levels, backend`tick, backend`next, backend`dirs
      ensures Sound() && backend.dirs - Handles(dirs) == old(backend.dirs - Handles(dirs))
      ensures rc == Ok && done ==> old(Pending(levels, Deep())) == [] && levels == []
      ensures rc == Ok && !done ==> old(Pending(levels, Deep())) == [v] + Pending(levels, Deep()) && Describes(v)
      ensures rc != Ok && backend.Faultless() ==>
                old(Pending(levels, Deep())) != [] && rc == Verdict(old(Pending(levels, Deep()))[0], Deep())
    {
      hide Stacked, Handles, Verdict, Pending, Component, Coherent, Nested, Join;
      ghost var all := Pending(levels, Deep());
      v := Visit([], [], Special(0), 0);
      StackSizes(backend.disk, backend.dirs, dirs, levels, path);
      while |dirs| > 0
        invariant Sound() && |levels| == |dirs| && Pending(levels, Deep()) == all
        invariant backend.dirs - Handles(dirs) == old(backend.dirs - Handles(dirs))
        decreases |dirs|
      {
        ghost var before := levels;
        var name;
        rc, name := ReadTop();
        if rc != Ok {
          return rc, false, v;
        }
        if |name| == 0 {
          EmptyTop(before, Deep());
          CloseTop();
        } else {
          ghost var top := before[|dirs| - 1];
          PendingNext(before, Deep());
          v := Visit(Join(path, name), name, top.rest[0].node, |dirs|);
          rc := Enter(name, v);
          return rc, false, v;
        }
      }
      EmptyWalk(levels, Deep());
      return Ok, true, v;
    }

    // ----- Staging

    method StageTree()
      requires stage.Length == STAGE_SIZE && |path| < PATH_CAPACITY
      modifies this`stageSize, this`stageOffset, stage
      ensures stageOffset == 0 && stageSize <= STAGE_SIZE
      ensures forall node :: InfoOf(node) == info ==> stage[..stageSize] == TreeRecord(Drop(path, base), node) != []
    {
      hide Be;
      var relative := Drop(path, base);
      stageSize, stageOffset := TREE_HEADER + |relative|, 0;
      Put(stage, 0, 2, stageSize);
      stage[2] := info.type_;
      stage[3] := 0;
      Put(stage, 4, 8, if info.type_ == ENTRY_FILE then info.size else 0);
      Put(stage, 12, 2, |relative|);
      PutBytes(stage, 14, relative);
    }

    /** Opens the file the path names; a size that is not the one announced means it has changed. */
    method OpenFile() returns (rc: FsResult)
      requires Sound() && file == None && path in backend.disk && backend.disk[path].File? && info == InfoOf(backend.disk[path])
      modifies this`file, this`remaining, backend`tick, backend`next, backend`files
      ensures Sound() && backend.files - FileHandles() == old(backend.files)
      ensures rc == Ok ==> Sending() && backend.files[file.value].pos == 0
      ensures rc != Ok ==> !backend.Faultless()
    {
      hide Stacked, Handles, Coherent;
      var h, size;
      AsideOpened(backend.files, {}, backend.next, FsBackend.OpenFile(backend.disk[path].contents, 0));
      assert backend.files - {} == backend.files;
      rc, h, size := backend.FileOpen(path);
      if rc != Ok {
        return;
      }
      file := Some(h);
      if size != info.size {
        return Changed;
      }
      remaining := size;
    }

    lemma DescribedFine(v: Visit)
      requires Describes(v)
      ensures Verdict(v, Deep()) == Ok && !v.node.Special?
      ensures path == v.path && |path| < PATH_CAPACITY && info == InfoOf(v.node) && path in backend.disk && backend.disk[path] == v.node
    {
    }

    /** The end of the walk: a tar stream closes with two blocks of zeros. */
    method EndWalk()
      requires Sound() && levels == [] && file == None && FILE_STREAM < kind <= TAR_STREAM
      modifies this`phase, this`stageSize, this`stageOffset, stage
      ensures Valid() && phase == Finished && Ahead() == Coded(kind, [], base)
    {
      hide Stacked, Zeros, Coherent, Coded;
      CodedNone(kind, base);
      phase, stageOffset := Finished, 0;
      stageSize := if kind == TAR_STREAM then 1024 else 0;
      Clear(stage, 0, stageSize);
    }

    method StageHead()
      requires stage.Length == STAGE_SIZE && |path| < PATH_CAPACITY && info.size < U64_LIMIT
      modifies this`stageSize, this`stageOffset, stage
      ensures stageOffset == 0 < stageSize <= STAGE_SIZE
      ensures stage[..stageSize] == MemberHead(Drop(path, base), info.type_ == ENTRY_DIR, info.size)
    {
      hide MemberHead;
      stageSize := StageMember(stage, Drop(path, base), info.type_ == ENTRY_DIR, info.size);
      stageOffset := 0;
    }

    /** Stages a tar member, opening its file if it is one. */
    method StageTar(ghost v: Visit, ghost rest: seq<Visit>) returns (rc: FsResult)
      requires Sound() && file == None && Describes(v) && kind == TAR_STREAM && phase == Walk
      requires rest == Pending(levels, Deep())
      modifies this`file, this`remaining, this`phase, this`stageSize, this`stageOffset
      modifies backend`tick, backend`next, backend`files, stage
      ensures Sound() && backend.files - FileHandles() == old(backend.files)
      ensures rc == Ok ==> Valid() && stageOffset < stageSize && Ahead() == Coded(kind, [v] + rest, base)
      ensures rc != Ok ==> !backend.Faultless()
    {
      hide Stacked, Handles, Coherent, Zeros, MemberHead, Pending, Coded, Describes, Verdict, Drop, PaddingOf;
      DescribedFine(v);
      DiskTypes(backend.disk, path);
      CodedTar(v, rest, base);
      MapMinusNone(backend.files);
      if info.type_ == ENTRY_FILE {
        rc := OpenFile();
        if rc != Ok {
          return;
        }
        phase := FileData;
      }
      StageHead();
      rc := Ok;
    }

    /** Stages what is to be sent for the entry just met. */
    method StageEntry(ghost v: Visit, ghost rest: seq<Visit>) returns (rc: FsResult)
      requires Sound() && file == None && Describes(v) && FILE_STREAM < kind <= TAR_STREAM && phase == Walk
      requires rest == Pending(levels, Deep())
      modifies this`file, this`remaining, this`phase, this`stageSize, this`stageOffset
      modifies backend`tick, backend`next, backend`files, stage
      ensures Sound() && backend.files - FileHandles() == old(backend.files)
      ensures rc == Ok ==> Valid() && stageOffset < stageSize && Ahead() == Coded(kind, [v] + rest, base)
      ensures rc != Ok ==> !backend.Faultless()
    {
      hide Stacked, Handles, Coherent, Zeros, Component, Pending, Coded, TreeRecord;
      if kind == TREE_STREAM {
        MapMinusNone(backend.files);
        CodedTree(v, rest, base);
        StageTree();
        rc := Ok;
      } else {
        rc := StageTar(v, rest);
      }
    }

    lemma AheadWalking()
      requires Valid() && phase == Walk && stageOffset == stageSize
      ensures Ahead() == Coded(kind, Pending(levels, Deep()), base)
    {
      hide Stacked, Handles, Coherent, Pending, Coded;
    }

    /** Takes the walk one entry further and stages what is to be sent for it. */
    method Advance() returns (rc: FsResult)
      requires Valid() && phase == Walk && stageOffset == stageSize
      modifies this`path, this`dirs, this`file, this`info, this`remaining, this`stageSize, this`stageOffset, this`phase
      modifies this`levels, backend`tick, backend`next, backend`files, backend`dirs, stage
      ensures Sound() && AsideKept(old(Aside()))
      ensures rc == Ok ==>
                && Valid() && Ahead() == old(Ahead()) && Obstacle() == old(Obstacle())
                && (phase == Finished || stageOffset < stageSize)
      ensures rc != Ok && backend.Faultless() ==> rc == old(Obstacle())
    {
      hide Stacked, Handles, Verdict, Pending, Coherent, Preorder, Coded, Describes, Blocking, Component, Nested, Ahead, Behind;
      ghost var visits := Pending(levels, Deep());
      MapMinusNone(backend.files);
      AheadWalking();
      var done: bool;
      ghost var v: Visit;
      rc, done, v := NextEntry();
      BlockingFirst(visits, Deep());
      if rc != Ok {
        return;
      }
      ghost var rest := Pending(levels, Deep());
      if done {
        EmptyWalk(levels, Deep());
        EndWalk();
      } else {
        DescribedFine(v);
        assert visits[0] == v && visits[1..] == rest;
        rc := StageEntry(v, rest);
      }
    }

    // ----- Emitting

    /** A finished file must still be what it was when it was opened. */
    method FinishFile() returns (rc: FsResult)
      requires Valid() && phase == FileData && remaining == 0 && stageOffset == stageSize
      modifies this`file, this`phase, this`padding, backend`tick, backend`files
      ensures Sound() && AsideKept(old(Aside()))
      ensures rc == Ok ==>
                && Valid() && Ahead() == old(Ahead())
                && phase == (if kind == FILE_STREAM then Finished else FilePadding)
      ensures rc != Ok ==> !backend.Faultless()
    {
      hide Stacked, Handles, Coherent, Zeros, Pending, Coded, Blocking, Ahead, Behind;
      AheadSending();
      SentWhole();
      var current;
      rc, current := backend.Stat(path);
      AsideClosed(backend.files, FileHandles(), file.value);
      assert FileHandles() - {file.value} == {};
      backend.FileClose(file.value);
      file := None;
      if rc == NotFound {
        return Changed;
      }
      if rc != Ok {
        return;
      }
      DiskTypes(backend.disk, path);
      if current.type_ != ENTRY_FILE || current.size != info.size || current.stamp != info.stamp {
        return Changed;
      }
      if kind == FILE_STREAM {
        phase := Finished;
        NothingAhead();
      } else {
        padding := (512 - info.size % 512) % 512;
        phase := FilePadding;
        AheadPadding();
      }
    }

    /** With nothing left to send, the file has been read to its end. */
    lemma SentWhole()
      requires Valid() && phase == FileData && remaining == 0
      ensures var f := backend.files[file.value]; f.contents[f.pos..] == []
    {
      hide Stacked, Handles, Coherent;
    }

    lemma NothingAhead()
      requires Valid() && phase == Finished && stageOffset == stageSize
      ensures Ahead() == []
    {
      hide Stacked, Handles, Coherent;
    }

    /** Sends staged bytes. */
    method Flush(data: array<u8>, at: nat, available: nat) returns (n: nat)
      requires Valid() && stageOffset < stageSize && 0 < available && at + available <= data.Length && data != stage
      modifies this`stageOffset, data
      ensures Valid() && 0 < n <= available
      ensures data[..at] == old(data[..at]) && old(Ahead()) == data[at..at + n] + Ahead()
    {
      hide Stacked, Handles, Coherent, Zeros, Pending, Coded, Sending, Behind, Over;
      n := stageSize - stageOffset;
      if n > available {
        n := available;
      }
      var piece := stage[stageOffset..stageOffset + n];
      Parts(stage[..], stageOffset, stageOffset + n, stageSize);
      OverParts(data[..], at, piece);
      PutBytes(data, at, piece);
      assert data[at..at + n] == data[..][at..at + n] == piece;
      stageOffset := stageOffset + n;
    }

    /** What follows the file being sent. */
    ghost function AfterFile(): Bytes
      reads `info, `levels, `base
    {
      if kind == FILE_STREAM then [] else Zeros(PaddingOf(info.size)) + Coming()
    }

    lemma AheadSending()
      requires Valid() && phase == FileData && stageOffset == stageSize
      ensures var f := backend.files[file.value]; Ahead() == f.contents[f.pos..] + AfterFile()
    {
      hide Stacked, Handles, Coherent, Zeros, Pending, Coded, PaddingOf;
    }

    /** One read from the open file, kept in step with `remaining`. */
    method Chunk(data: array<u8>, at: nat, want: nat) returns (rc: FsResult, n: nat)
      requires Valid() && phase == FileData && stageOffset == stageSize
      requires 0 < want <= remaining && at + want <= data.Length && data != stage
      modifies this`remaining, backend`tick, backend`files, data
      ensures Sound() && AsideKept(old(Aside()))
      ensures rc == Ok ==>
                var f := old(backend.files[file.value]);
                && Valid() && 0 < n <= want && f.pos + n <= |f.contents|
                && backend.files[file.value] == FsBackend.OpenFile(f.contents, f.pos + n)
                && data[..] == Over(old(data[..]), at, f.contents[f.pos..f.pos + n])
      ensures rc != Ok ==> !backend.Faultless()
    {
      hide Stacked, Handles, Coherent, Over;
      rc, n := backend.FileRead(file.value, data, at, want);
      if rc != Ok {
        return;
      }
      AsideMoved(old(backend.files), FileHandles(), file.value, backend.files[file.value]);
      if n == 0 || n > want {
        return Changed, n;
      }
      remaining := remaining - n;
    }

    /** Sends as much of the file as one read yields. */
    method Pull(data: array<u8>, at: nat, available: nat) returns (rc: FsResult, n: nat)
      requires Valid() && phase == FileData && remaining > 0 && stageOffset == stageSize
      requires 0 < available && at + available <= data.Length && data != stage
      modifies this`remaining, backend`tick, backend`files, data
      ensures Sound() && AsideKept(old(Aside()))
      ensures rc == Ok ==>
                && Valid() && 0 < n <= available && data[..at] == old(data[..at])
                && old(Ahead()) == data[at..at + n] + Ahead()
      ensures rc != Ok ==> !backend.Faultless()
    {
      hide Stacked, Handles, Coherent, Zeros, Pending, Coded, Over, PaddingOf, Ahead, Behind;
      ghost var f := backend.files[file.value];
      ghost var before, tail := data[..], AfterFile();
      AheadSending();
      assert f == backend.files[file.value] && Ahead() == f.contents[f.pos..] + tail;
      rc, n := Chunk(data, at, if remaining < available then remaining else available);
      if rc == Ok {
        OverParts(before, at, f.contents[f.pos..f.pos + n]);
        AheadSending();
        assert AfterFile() == tail;
        assert f.contents[f.pos..] == data[at..at + n] + f.contents[f.pos + n..];
      }
    }

    /** Sends zeros up to the next block boundary. */
    method Pad(data: array<u8>, at: nat, available: nat) returns (n: nat)
      requires Valid() && phase == FilePadding && stageOffset == stageSize
      requires 0 < available && at + available <= data.Length && data != stage
      modifies this`padding, this`phase, data
      ensures Valid() && n <= available && (n == 0 ==> phase == Walk && old(padding) == 0)
      ensures data[..at] == old(data[..at]) && old(Ahead()) == data[at..at + n] + Ahead()
    {
      hide Stacked, Handles, Coherent, Zeros, Pending, Coded, Ahead, Behind, Over;
      AheadPadding();
      n := if padding < available then padding else available;
      ZerosSplit(n, padding - n);
      OneZero();
      ghost var before := data[..];
      Clear(data, at, n);
      OverParts(before, at, Zeros(n));
      padding := padding - n;
      AheadPadding();
      if padding == 0 {
        phase := Walk;
        AheadWalking();
      }
    }

    lemma AheadPadding()
      requires Valid() && phase == FilePadding && stageOffset == stageSize
      ensures Ahead() == Zeros(padding) + Coming()
    {
      hide Stacked, Handles, Coherent, Zeros, Pending, Coded, PaddingOf;
    }

    // ----- Blocks

    ghost predicate Spent()
      reads this
    {
      phase == Finished && stageOffset == stageSize
    }

    /** How many steps may pass before a byte is sent or the end is reached. */
    ghost function Rank(): nat
      reads this
    {
      if stageOffset < stageSize then 0
      else
        match phase
        case FileData => if remaining > 0 then 0 else 3
        case FilePadding => if padding > 0 then 0 else 2
        case Walk => 1
        case Finished => 0
    }

    /** One step of the generator: bytes sent, or the next thing to send made ready. */
    method Step(data: array<u8>, at: nat, available: nat) returns (rc: FsResult, n: nat)
      requires Valid() && !Spent() && 0 < available && at + available <= data.Length && data != stage
      modifies this`path, this`dirs, this`file, this`info, this`remaining, this`padding, this`stageSize, this`stageOffset
      modifies this`phase, this`levels, backend`tick, backend`next, backend`files, backend`dirs, stage, data
      ensures Sound() && AsideKept(old(Aside()))
      ensures rc == Ok ==>
                && Valid() && n <= available && data[..at] == old(data[..at])
                && old(Ahead()) == data[at..at + n] + Ahead() && Obstacle() == old(Obstacle())
                && (n == 0 ==> Rank() < old(Rank()))
                && (kind == TREE_STREAM && phase == Finished ==> n == 0)
      ensures rc != Ok && backend.Faultless() ==> rc == old(Obstacle())
    {
      hide Sound, Ahead, Behind, Coming, Sending, Stacked, Handles, Blocking, Pending;
      rc, n := Ok, 0;
      if stageOffset < stageSize {
        n := Flush(data, at, available);
      } else if phase == FileData {
        if remaining == 0 {
          rc := FinishFile();
        } else {
          rc, n := Pull(data, at, available);
        }
      } else if phase == FilePadding {
        n := Pad(data, at, available);
      } else {
        rc := Advance();
      }
      assert rc == Ok ==> data[at..at + 0] == [];
    }

    /** Whether the file's last byte has gone out and nothing else is staged. */
    predicate FileDue()
      reads this
    {
      phase == FileData && remaining == 0 && stageOffset == stageSize
    }

    /** Nothing lies ahead once the generator is spent; a tar or file stream that is not spent has bytes ahead. */
    lemma SpentOrAhead()
      requires Valid()
      ensures Spent() ==> Ahead() == []
      ensures !Spent() && !FileDue() && kind != TREE_STREAM ==> Ahead() != []
    {
      hide Stacked, Handles, Coherent, Pending, Members;
    }

    /** Steps until the block is full or the stream has ended. */
    method Fill(data: array<u8>, capacity: nat) returns (rc: FsResult, size: nat)
      requires Valid() && capacity <= data.Length && data != stage
      modifies this`path, this`dirs, this`file, this`info, this`remaining, this`padding, this`stageSize, this`stageOffset
      modifies this`phase, this`levels, backend`tick, backend`next, backend`files, backend`dirs, stage, data
      ensures Sound() && AsideKept(old(Aside()))
      ensures rc == Ok ==>
                && Valid() && size <= capacity && (size < capacity ==> Spent())
                && old(Ahead()) == data[..size] + Ahead() && Obstacle() == old(Obstacle())
                && (kind == TREE_STREAM && phase == Finished ==> Spent() && (size < capacity || capacity == 0))
      ensures rc != Ok && backend.Faultless() ==> rc == old(Obstacle())
    {
      hide Sound, Ahead, Behind, Coming, Sending, Stacked, Handles, Blocking, Pending, Rank;
      rc, size := Ok, 0;
      assert data[..0] + Ahead() == Ahead();
      while size < capacity && !(phase == Finished && stageOffset == stageSize)
        invariant rc == Ok && size <= capacity && Valid() && AsideKept(old(Aside()))
        invariant old(Ahead()) == data[..size] + Ahead() && Obstacle() == old(Obstacle())
        invariant kind == TREE_STREAM && phase == Finished ==> Spent() && (size < capacity || capacity == 0)
        decreases capacity - size, Rank()
      {
        ghost var sent, ahead := data[..size], Ahead();
        var n;
        rc, n := Step(data, size, capacity - size);
        if rc != Ok {
          return;
        }
        assert data[..size + n] == sent + data[size..size + n];
        assert old(Ahead()) == sent + ahead;
        size := size + n;
      }
    }

    /** The next block: full unless the stream has ended; an error closes everything. */
    method Read(data: array<u8>, capacity: nat) returns (rc: FsResult, size: nat, eof: bool)
      requires Valid() && capacity <= data.Length && data != stage
      modifies this`path, this`dirs, this`file, this`info, this`remaining, this`padding, this`stageSize, this`stageOffset
      modifies this`phase, this`levels, backend`tick, backend`next, backend`files, backend`dirs, stage, data
      ensures Sound() && AsideKept(old(Aside()))
      ensures capacity == 0 ==> rc == Invalid && Valid() && Ahead() == old(Ahead())
      ensures rc == Ok ==>
                && Valid() && size <= capacity && old(Ahead()) == data[..size] + Ahead()
                && (if eof then Ahead() == [] && dirs == [] && file == None else size == capacity)
                && eof == (if kind == TREE_STREAM then |old(Ahead())| < capacity else |old(Ahead())| <= capacity)
                && data[..size] == Block(old(Ahead()), capacity) && Ahead() == After(old(Ahead()), capacity)
                && Obstacle() == old(Obstacle()) && (eof ==> Obstacle() == Ok)
      ensures rc != Ok && capacity > 0 ==> dirs == [] && file == None
      ensures rc != Ok && capacity > 0 && backend.Faultless() ==> rc == old(Obstacle())
    {
      hide Sound, Ahead, Behind, Coming, Sending, Stacked, Blocking, Pending, Handles;
      if capacity == 0 {
        return Invalid, 0, false;
      }
      rc, size := Fill(data, capacity);
      if rc == Ok && FileDue() {
        rc := FinishFile();
      }
      eof := false;
      if rc != Ok {
        CloseAll();
        return;
      }
      SpentOrAhead();
      eof := phase == Finished && stageOffset == stageSize;
      assert data[..size] + Ahead() == old(Ahead());
      assert data[..size] == old(Ahead())[..size] && Ahead() == old(Ahead())[size..];
      if eof {
        NothingOpen();
      }
    }

    method CloseAll()
      requires Sound()
      modifies this`file, this`dirs, this`levels, this`phase, backend`dirs, backend`files
      ensures Sound() && dirs == [] && file == None && AsideKept(old(Aside()))
    {
      Close();
      assert Handles([]) == {};
      MapMinusNone(backend.files);
      MapMinusNone(backend.dirs);
    }

    lemma NothingOpen()
      requires Valid() && phase == Finished
      ensures dirs == [] && file == None && Obstacle() == Ok
    {
      StackSizes(backend.disk, backend.dirs, dirs, levels, path);
    }

    /** The stream the reader was made for. */
    ghost function Stream(): Bytes {
      StreamOf(backend.disk, root, kind, flags)
    }

    /** What stands in the way of streaming a path to its end. */
    ghost function Bar(): FsResult {
      BarOf(backend.disk, root, kind, flags)
    }

    /** What opening this stream comes to when nothing fails. */
    ghost function OpenVerdict(): FsResult { OpeningOf(backend.disk, root, kind, flags) }

    ghost predicate Untouched()
      reads this, backend
    {
      && Sound() && dirs == [] && levels == [] && file == None && path == root && stageOffset == stageSize == 0
      && base == |root| + if root != [] && root[|root| - 1] != SLASH then 1 else 0
    }

    method OpenDir() returns (rc: FsResult)
      requires Untouched() && FILE_STREAM < kind <= TAR_STREAM && root in backend.disk && backend.disk[root].Dir?
      modifies this`dirs, this`levels, this`phase, backend`tick, backend`next, backend`dirs
      ensures Sound() && AsideKept(old(Aside()))
      ensures rc == Ok ==> Valid() && Ahead() == Stream() && Obstacle() == Bar()
      ensures rc != Ok ==> dirs == [] && !backend.Faultless()
    {
      hide Stacked, Handles, Coherent, Preorder, Coded, Blocking;
      ghost var children := backend.disk[root].children;
      assert Nested(backend.disk, root, children) by { DirNested(backend.disk, root); }
      rc := DescendFrom(children);
      phase := Walk;
      if rc == Ok {
        PendingOne(Level(root, children), Deep());
      }
    }

    method DescendFrom(ghost children: seq<Child>) returns (rc: FsResult)
      requires Untouched() && root in backend.disk && backend.disk[root] == Dir(children)
      requires Nested(backend.disk, root, children)
      modifies this`dirs, this`levels, backend`tick, backend`next, backend`dirs
      ensures Sound() && AsideKept(old(Aside()))
      ensures rc == Ok ==> levels == [Level(root, children)]
      ensures rc != Ok ==> dirs == [] && levels == [] && !backend.Faultless()
    {
      hide Stacked, Handles;
      rc := Descend();
      assert [] + [Level(root, children)] == [Level(root, children)];
      if rc != Ok {
        StackSizes(backend.disk, backend.dirs, dirs, levels, path);
      }
    }

    method OpenWhole() returns (rc: FsResult)
      requires Untouched() && kind == FILE_STREAM && root in backend.disk && backend.disk[root].File?
      requires info == InfoOf(backend.disk[root])
      modifies this`file, this`remaining, this`phase, backend`tick, backend`next, backend`files
      ensures Sound() && AsideKept(old(Aside())) && |Stream()| == info.size
      ensures rc == Ok ==> Valid() && Ahead() == Stream() && Obstacle() == Bar()
      ensures rc != Ok ==> !backend.Faultless()
    {
      hide Stacked, Handles, Coherent, Zeros, PaddingOf;
      MapMinusNone(backend.files);
      EmptyWalk(levels, Deep());
      rc := OpenFile();
      phase := FileData;
    }

    /** Opens the stream, or leaves nothing open behind. */
    method Open() returns (rc: FsResult)
      requires Untouched()
      modifies this`dirs, this`levels, this`file, this`info, this`remaining, this`totalSize, this`phase
      modifies backend`tick, backend`next, backend`files, backend`dirs
      ensures Sound() && AsideKept(old(Aside()))
      ensures rc == Ok ==>
                && Valid() && root in backend.disk && Ahead() == Stream() && Obstacle() == Bar() && OpenVerdict() == Ok
                && totalSize == (if kind == FILE_STREAM then |Stream()| else U64_LIMIT - 1)
      ensures rc != Ok ==> dirs == [] && file == None
      ensures backend.Faultless() ==> rc == OpenVerdict()
    {
      hide Stacked, Handles, Ahead, Behind, Coming, Stream, Bar;
      if |root| >= PATH_CAPACITY {
        return OutOfRange;
      }
      if kind < FILE_STREAM || kind > TAR_STREAM {
        return Unsupported;
      }
      if (kind != TREE_STREAM && flags != 0) || flags > 1 {
        return Invalid;
      }
      var described;
      rc, described := backend.Stat(root);
      if rc != Ok {
        return;
      }
      info := described;
      DiskTypes(backend.disk, root);
      if info.type_ != (if kind == FILE_STREAM then ENTRY_FILE else ENTRY_DIR) {
        return TypeError;
      }
      totalSize := if kind == FILE_STREAM then info.size else U64_LIMIT - 1;
      if kind == FILE_STREAM {
        rc := OpenWhole();
      } else {
        rc := OpenDir();
      }
      if rc != Ok {
        CloseAll();
      }
    }
  }

  lemma DirNested(disk: Disk, path: Bytes)
    requires Coherent(disk) && path in disk && disk[path].Dir?
    ensures Nested(disk, path, disk[path].children)
  {
  }

  lemma PendingOne(level: Level, deep: bool)
    ensures Pending([level], deep) == Preorder(level.path, level.rest, 1, deep)
  {
    assert [level][..0] == [];
    assert Pending([], deep) == [];
  }

  /** What stands in the way of streaming a path to its end. */
  ghost function BarOf(disk: Disk, root: Bytes, kind: u8, flags: u8): FsResult {
    var deep := kind == TAR_STREAM || flags % 2 == 1;
    if root in disk && disk[root].Dir? then Blocking(Preorder(root, disk[root].children, 1, deep), deep) else Ok
  }

  /** What opening a stream comes to when nothing fails. */
  ghost function OpeningOf(disk: Disk, root: Bytes, kind: u8, flags: u8): FsResult {
    if |root| >= PATH_CAPACITY then OutOfRange
    else if kind < FILE_STREAM || kind > TAR_STREAM then Unsupported
    else if (kind != TREE_STREAM && flags != 0) || flags > 1 then Invalid
    else if root !in disk then NotFound
    else if (if kind == FILE_STREAM then disk[root].File? else disk[root].Dir?) then Ok
    else TypeError
  }

  /** The stream a path stands for. */
  ghost function StreamOf(disk: Disk, root: Bytes, kind: u8, flags: u8): Bytes {
    if root !in disk then []
    else
      match disk[root]
      case File(contents, _) => contents
      case Dir(children) =>
        Coded(kind, Preorder(root, children, 1, kind == TAR_STREAM || flags % 2 == 1),
              |root| + if root != [] && root[|root| - 1] != SLASH then 1 else 0)
      case Special(_) => []
  }

  lemma Parts(b: Bytes, i: nat, j: nat, k: nat)
    requires i <= j <= k <= |b|
    ensures b[i..k] == b[i..j] + b[j..k]
  {
  }

  lemma OverParts(before: Bytes, at: nat, b: Bytes)
    requires at + |b| <= |before|
    ensures |Over(before, at, b)| == |before|
    ensures Over(before, at, b)[..at] == before[..at] && Over(before, at, b)[at..at + |b|] == b
  {
  }

  lemma MapMinusNone<V>(m: map<nat, V>)
    ensures m - {} == m
  {
  }

  lemma CodedNone(kind: u8, base: nat)
    ensures Coded(kind, [], base) == if kind == TREE_STREAM then [] else Zeros(1024)
  {
  }

  lemma CodedTree(v: Visit, rest: seq<Visit>, base: nat)
    ensures Coded(TREE_STREAM, [v] + rest, base) == TreeRecord(Drop(v.path, base), v.node) + Coded(TREE_STREAM, rest, base)
  {
  }

  lemma CodedTar(v: Visit, rest: seq<Visit>, base: nat)
    ensures Coded(TAR_STREAM, [v] + rest, base) ==
            MemberHead(Drop(v.path, base), v.node.Dir?, SizeOf(v.node)) + (MemberData(v.node) + Coded(TAR_STREAM, rest, base))
  {
    hide MemberHead, Zeros;
  }

  /** The first entry decides unless it is fine. */
  lemma BlockingFirst(visits: seq<Visit>, deep: bool)
    ensures visits == [] ==> Blocking(visits, deep) == Ok
    ensures visits != [] ==>
              Blocking(visits, deep) == if Verdict(visits[0], deep) != Ok then Verdict(visits[0], deep) else Blocking(visits[1..], deep)
  {
  }

  lemma DiskTypes(disk: Disk, path: Bytes)
    requires Coherent(disk) && path in disk
    ensures var t := InfoOf(disk[path]).type_;
      (t == ENTRY_DIR <==> disk[path].Dir?) && (t == ENTRY_FILE <==> disk[path].File?) && SizeOf(disk[path]) < U64_LIMIT
  {
  }

  lemma EmptyTop(levels: seq<Level>, deep: bool)
    requires levels != [] && levels[|levels| - 1].rest == []
    ensures Pending(levels, deep) == Pending(levels[..|levels| - 1], deep)
  {
    PendingPop(levels, deep);
  }

  lemma EmptyWalk(levels: seq<Level>, deep: bool)
    requires levels == []
    ensures Pending(levels, deep) == []
  {
  }
}
