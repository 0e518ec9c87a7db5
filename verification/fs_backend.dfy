/**
 The file system behind the reader: a disk that does not change, reached through handles, where
 any call may fail and any read may come up short.
 */
module FsBackend {
  import opened Words
  import opened Buffers
  import opened FsNames
  import opened FsTree

  /** What the world decides about one call: whether it succeeds, and how much a read yields. */
  datatype Outcome = Outcome(rc: FsResult, n: nat)

  datatype Info = Info(size: nat, stamp: nat, type_: u8)

  datatype OpenFile = OpenFile(contents: Bytes, pos: nat)

  function InfoOf(node: Node): Info {
    Info(SizeOf(node), if node.File? then node.stamp else 0, TypeOf(node))
  }

  class Backend {
    const disk: Disk
    const world: nat -> Outcome
    var tick: nat
    var next: nat
    var files: map<nat, OpenFile>
    /** The children a directory handle has not yielded yet. */
    var dirs: map<nat, seq<Child>>

    ghost predicate Valid()
      reads this
    {
      && Coherent(disk)
      && (forall h :: h in files ==> h < next && files[h].pos <= |files[h].contents|)
      && (forall h :: h in dirs ==> h < next)
    }

    /** Nothing ever fails, and every read makes progress. */
    ghost predicate Faultless() { forall k: nat :: world(k).rc == Ok && world(k).n > 0 }

    constructor (disk: Disk, world: nat -> Outcome)
      requires Coherent(disk)
      ensures Valid() && this.disk == disk && this.world == world && files == map[] && dirs == map[]
    {
      this.disk, this.world := disk, world;
      tick, next, files, dirs := 0, 1, map[], map[];
    }

    method Stat(path: Bytes) returns (rc: FsResult, info: Info)
      requires Valid()
      modifies this`tick
      ensures rc == Ok ==> path in disk && info == InfoOf(disk[path])
      ensures Faultless() ==> rc == if path in disk then Ok else NotFound
    {
      var o := world(tick);
      tick := tick + 1;
      rc, info := o.rc, Info(0, 0, 0);
      if rc == Ok && path !in disk {
        rc := NotFound;
      }
      if rc == Ok {
        info := InfoOf(disk[path]);
      }
    }

    method FileOpen(path: Bytes) returns (rc: FsResult, h: nat, size: nat)
      requires Valid()
      modifies this`tick, this`next, this`files
      ensures Valid() && next >= old(next)
      ensures rc == Ok ==>
                && path in disk && disk[path].File? && h == old(next) && size == |disk[path].contents|
                && files == old(files)[h := OpenFile(disk[path].contents, 0)]
      ensures rc != Ok ==> files == old(files)
      ensures Faultless() && path in disk && disk[path].File? ==> rc == Ok
    {
      var o := world(tick);
      tick := tick + 1;
      rc, h, size := o.rc, 0, 0;
      if rc == Ok && !(path in disk && disk[path].File?) {
        rc := NotFound;
      }
      if rc == Ok {
        h, size := next, |disk[path].contents|;
        next := next + 1;
        files := files[h := OpenFile(disk[path].contents, 0)];
      }
    }

    /** At most `want` bytes, written at `at`; nothing is read past the end of the file. */
    method FileRead(h: nat, out: array<u8>, at: nat, want: nat) returns (rc: FsResult, n: nat)
      requires Valid() && h in files && at + want <= out.Length && 0 < want
      modifies this`tick, this`files, out
      ensures Valid()
      ensures rc != Ok ==> files == old(files)
      ensures rc == Ok ==>
                var f := old(files)[h];
                && n <= want && f.pos + n <= |f.contents|
                && files == old(files)[h := OpenFile(f.contents, f.pos + n)]
                && out[..] == Over(old(out[..]), at, f.contents[f.pos..f.pos + n])
      ensures Faultless() && old(files)[h].pos < |old(files)[h].contents| ==> rc == Ok && n > 0
    {
      var o := world(tick);
      tick := tick + 1;
      rc, n := o.rc, 0;
      if rc == Ok {
        var f := files[h];
        n := o.n;
        if n > want {
          n := want;
        }
        if n > |f.contents| - f.pos {
          n := |f.contents| - f.pos;
        }
        PutBytes(out, at, f.contents[f.pos..f.pos + n]);
        files := files[h := OpenFile(f.contents, f.pos + n)];
      }
    }

    method FileClose(h: nat)
      requires Valid() && h in files
      modifies this`files
      ensures Valid() && files == old(files) - {h}
    {
      files := files - {h};
    }

    method DirOpen(path: Bytes) returns (rc: FsResult, h: nat)
      requires Valid()
      modifies this`tick, this`next, this`dirs
      ensures Valid() && next >= old(next)
      ensures rc == Ok ==>
                && path in disk && disk[path].Dir? && h == old(next) && dirs == old(dirs)[h := disk[path].children]
      ensures rc != Ok ==> dirs == old(dirs)
      ensures Faultless() && path in disk && disk[path].Dir? ==> rc == Ok
    {
      var o := world(tick);
      tick := tick + 1;
      rc, h := o.rc, 0;
      if rc == Ok && !(path in disk && disk[path].Dir?) {
        rc := NotFound;
      }
      if rc == Ok {
        h := next;
        next := next + 1;
        dirs := dirs[h := disk[path].children];
      }
    }

    /** The next child of an open directory; the empty name marks its end. */
    method DirRead(h: nat) returns (rc: FsResult, name: Bytes, info: Info)
      requires Valid() && h in dirs
      modifies this`tick, this`dirs
      ensures Valid()
      ensures rc != Ok ==> dirs == old(dirs)
      ensures rc == Ok ==>
                var rest := old(dirs)[h];
                if rest == [] then name == [] && dirs == old(dirs)
                else name == rest[0].name && info == InfoOf(rest[0].node) && dirs == old(dirs)[h := rest[1..]]
      ensures Faultless() ==> rc == Ok
    {
      var o := world(tick);
      tick := tick + 1;
      rc, name, info := o.rc, [], Info(0, 0, 0);
      if rc == Ok && dirs[h] != [] {
        var c := dirs[h][0];
        name, info := c.name, InfoOf(c.node);
        dirs := dirs[h := dirs[h][1..]];
      }
    }

    method DirClose(h: nat)
      requires Valid() && h in dirs
      modifies this`dirs
      ensures Valid() && dirs == old(dirs) - {h}
    {
      dirs := dirs - {h};
    }
  }
}
