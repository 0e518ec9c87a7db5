/**
 What a file system reader is meant to stream: a tree of named nodes in preorder, coded as TREE
 records or as tar members.
 */
module FsTree {
  import opened Words
  import opened FsNames

  const MAX_DEPTH := 16

  datatype Node = File(contents: Bytes, stamp: nat) | Dir(children: seq<Child>) | Special(code: u8)

  datatype Child = Child(name: Bytes, node: Node)

  /** Every path of a file system that does not change, with what is there. */
  type Disk = map<Bytes, Node>

  function Join(parent: Bytes, name: Bytes): Bytes {
    parent + (if parent != [] && parent[|parent| - 1] != SLASH then [SLASH] else []) + name
  }

  /** A name as it crosses the backend boundary: a C string that fits the caller's buffer. */
  predicate CName(name: Bytes) { 0 < |name| < PATH_CAPACITY && forall i :: 0 <= i < |name| ==> name[i] != 0 }

  ghost predicate Nested(disk: Disk, path: Bytes, children: seq<Child>) {
    forall i :: 0 <= i < |children| ==>
      CName(children[i].name) && Join(path, children[i].name) in disk && disk[Join(path, children[i].name)] == children[i].node
  }

  /** Looking up a path finds what its directory lists, and file sizes fit 64 bits. */
  ghost predicate Coherent(disk: Disk) {
    forall path :: path in disk ==>
      && (disk[path].Dir? ==> Nested(disk, path, disk[path].children))
      && (disk[path].File? ==> |disk[path].contents| < U64_LIMIT)
      && (disk[path].Special? ==> disk[path].code != ENTRY_FILE && disk[path].code != ENTRY_DIR)
  }

  // ----- Preorder

  /** One entry met on the walk, with how many directories are open at that point. */
  datatype Visit = Visit(path: Bytes, name: Bytes, node: Node, depth: nat)

  function Preorder(path: Bytes, children: seq<Child>, depth: nat, deep: bool): seq<Visit>
    decreases children
  {
    if children == [] then []
    else
      var c, p := children[0], Join(path, children[0].name);
      [Visit(p, c.name, c.node, depth)]
      + ((if deep && c.node.Dir? then Preorder(p, c.node.children, depth + 1, deep) else [])
         + Preorder(path, children[1..], depth, deep))
  }

  /** A directory being read: its path and the children still to come. */
  datatype Level = Level(path: Bytes, rest: seq<Child>)

  /** What is left of a walk, innermost directory first. */
  function Pending(levels: seq<Level>, deep: bool): seq<Visit> {
    if levels == [] then []
    else
      var n := |levels| - 1;
      Preorder(levels[n].path, levels[n].rest, |levels|, deep) + Pending(levels[..n], deep)
  }

  lemma PendingPop(levels: seq<Level>, deep: bool)
    requires levels != [] && levels[|levels| - 1].rest == []
    ensures Pending(levels, deep) == Pending(levels[..|levels| - 1], deep)
  {
  }

  /** Reading one child and, where the walk goes deep, opening it. */
  lemma PendingNext(levels: seq<Level>, deep: bool)
    requires levels != [] && levels[|levels| - 1].rest != []
    ensures var n := |levels| - 1;
      var top := levels[n];
      var c, p := top.rest[0], Join(top.path, top.rest[0].name);
      var after := levels[n := top.(rest := top.rest[1..])];
      Pending(levels, deep) == [Visit(p, c.name, c.node, |levels|)]
                               + Pending(if deep && c.node.Dir? then after + [Level(p, c.node.children)] else after, deep)
  {
    var n := |levels| - 1;
    var top := levels[n];
    var c, p := top.rest[0], Join(top.path, top.rest[0].name);
    var after := levels[n := top.(rest := top.rest[1..])];
    assert after[..n] == levels[..n];
    if deep && c.node.Dir? {
      var pushed := after + [Level(p, c.node.children)];
      assert pushed[..n + 1] == after;
      assert Pending(pushed, deep) == Preorder(p, c.node.children, n + 2, deep) + Pending(after, deep);
    }
  }

  // ----- What the reader accepts

  /** How the reader judges one entry: the first limit it breaks, in the order they are checked. */
  function Verdict(v: Visit, deep: bool): FsResult {
    if !Component(v.name) then Invalid
    else if |v.path| >= PATH_CAPACITY then OutOfRange
    else if v.node.Dir? && deep && v.depth >= MAX_DEPTH then OutOfRange
    else if v.node.Special? then Unsupported
    else Ok
  }

  /** The verdict that stops a walk, or Ok if it can be walked to its end. */
  function Blocking(visits: seq<Visit>, deep: bool): FsResult {
    if visits == [] then Ok
    else if Verdict(visits[0], deep) != Ok then Verdict(visits[0], deep)
    else Blocking(visits[1..], deep)
  }

  // ----- Codings

  function Drop(b: Bytes, n: nat): Bytes { if n <= |b| then b[n..] else [] }

  function Zeros(n: nat): (b: Bytes)
    ensures |b| == n && forall i :: 0 <= i < n ==> b[i] == 0
  {
    if n == 0 then [] else Zeros(n - 1) + [0]
  }

  const ENTRY_FILE: u8 := 1
  const ENTRY_DIR: u8 := 2

  function TypeOf(node: Node): u8 {
    match node
    case File(_, _) => ENTRY_FILE
    case Dir(_) => ENTRY_DIR
    case Special(code) => code
  }

  function SizeOf(node: Node): nat { if node.File? then |node.contents| else 0 }

  const TREE_HEADER := 14

  function TreeRecord(relative: Bytes, node: Node): (b: Bytes)
    ensures |b| == TREE_HEADER + |relative|
  {
    Be(2, TREE_HEADER + |relative|) + [TypeOf(node), 0] + Be(8, SizeOf(node)) + Be(2, |relative|) + relative
  }

  function TreeStream(visits: seq<Visit>, base: nat): Bytes {
    if visits == [] then []
    else TreeRecord(Drop(visits[0].path, base), visits[0].node) + TreeStream(visits[1..], base)
  }
}
