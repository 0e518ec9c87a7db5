/**
 Directory listings: the client's record loop over a TREE stream that arrives in pieces.
 */
module FsListing {
  import opened Words
  import opened Utf8
  import opened FsNames
  import opened FsTree
  import opened FsReader

  datatype Listed = Listed(path: Bytes, dir: bool, size: nat)

  predicate PartOk(part: Bytes) { part != [] && part != [DOT] && part != [DOT, DOT] }

  /** The client's own rules for a relative path. */
  predicate ClientPath(name: Bytes) {
    && name != [] && name[0] != SLASH && Utf8Valid(name)
    && (forall i :: 0 <= i < |name| ==> name[i] != COLON && name[i] != BACKSLASH && name[i] != 0)
    && (forall i :: 0 <= i < |Split(name)| ==> PartOk(Split(name)[i]))
  }

  datatype Head = Incomplete | Bad | Record(entry: Listed, rest: Bytes)

  /** The record at the head of the bytes still pending, once all of it is there. */
  function TakeRecord(b: Bytes): (r: Head)
    ensures r.Record? ==> |r.rest| < |b|
  {
    if |b| < 2 then Incomplete
    else
      var n := FromBe(b[..2]);
      if n < 15 then Bad
      else if |b| < n then Incomplete
      else
        var kind, size, length, name := b[2], FromBe(b[4..12]), FromBe(b[12..14]), b[14..n];
        if (kind != ENTRY_FILE && kind != ENTRY_DIR) || b[3] != 0 || n != 14 + length || (kind == ENTRY_DIR && size != 0)
           || !ClientPath(name) then Bad
        else Record(Listed(name, kind == ENTRY_DIR, size), b[n..])
  }

  datatype Drained = Drained(entries: seq<Listed>, rest: Bytes, bad: bool)

  function Drain(b: Bytes): Drained
    decreases |b|
  {
    match TakeRecord(b)
    case Incomplete => Drained([], b, false)
    case Bad => Drained([], b, true)
    case Record(e, rest) => var d := Drain(rest); d.(entries := [e] + d.entries)
  }

  lemma TakeMore(a: Bytes, b: Bytes)
    ensures TakeRecord(a).Record? ==> TakeRecord(a + b) == Record(TakeRecord(a).entry, TakeRecord(a).rest + b)
    ensures TakeRecord(a).Bad? ==> TakeRecord(a + b).Bad?
  {
    hide FromBe, ClientPath;
    var c := a + b;
    if |a| >= 2 {
      assert c[..2] == a[..2];
      var n := FromBe(a[..2]);
      if 15 <= n <= |a| {
        assert c[4..12] == a[4..12] && c[12..14] == a[12..14] && c[14..n] == a[14..n] && c[n..] == a[n..] + b;
      }
    }
  }

  /** More bytes only add to what has already been listed. */
  lemma {:induction false} DrainMore(a: Bytes, b: Bytes)
    ensures var d := Drain(a);
      if d.bad then Drain(a + b).bad
      else Drain(a + b) == Drain(d.rest + b).(entries := d.entries + Drain(d.rest + b).entries)
    decreases |a|
  {
    hide TakeRecord;
    TakeMore(a, b);
    match TakeRecord(a)
    case Incomplete => assert Drain(a) == Drained([], a, false);
    case Bad =>
    case Record(e, rest) =>
      DrainMore(rest, b);
      assert Drain(a).entries == [e] + Drain(rest).entries;
  }

  // ----- What the server emits is what the client accepts

  /** A component is well-formed text without separators or other bytes the client forbids. */
  lemma {:induction false} PlainTextBytes(b: Bytes)
    requires PlainText(b)
    ensures Utf8Valid(b)
    ensures forall i :: 0 <= i < |b| ==> b[i] != COLON && b[i] != BACKSLASH && b[i] != 0 && b[i] != SLASH
    decreases |b|
  {
    if b != [] {
      var n := Utf8Length(b);
      PlainTextBytes(b[n..]);
      forall i | 0 <= i < |b| ensures b[i] != COLON && b[i] != BACKSLASH && b[i] != 0 && b[i] != SLASH {
        if i >= n {
          assert b[i] == b[n..][i - n];
        } else if n == 1 {
          assert Utf8Value(b) == b[0];
        }
      }
    }
  }

  lemma {:induction false} SplitPlain(b: Bytes)
    requires forall i :: 0 <= i < |b| ==> b[i] != SLASH
    ensures Split(b) == [b]
  {
    if b != [] {
      SplitPlain(b[1..]);
      assert [b[0]] + b[1..] == b;
    }
  }

  lemma SplitHead(c: u8, rest: Bytes)
    ensures Split([]) == [[]]
    ensures Split([c] + rest) == if c == SLASH then [[]] + Split(rest) else [[c] + Split(rest)[0]] + Split(rest)[1..]
  {
    assert ([c] + rest)[1..] == rest;
  }

  lemma {:induction false} SplitJoined(a: Bytes, b: Bytes)
    ensures Split(a + [SLASH] + b) == Split(a) + Split(b)
  {
    hide Split;
    if a == [] {
      assert a + [SLASH] + b == [SLASH] + b;
      SplitHead(SLASH, b);
    } else {
      assert a == [a[0]] + a[1..] && a + [SLASH] + b == [a[0]] + (a[1..] + [SLASH] + b);
      SplitHead(a[0], a[1..]);
      SplitHead(a[0], a[1..] + [SLASH] + b);
      SplitJoined(a[1..], b);
      var parts, rest := Split(a[1..]), Split(b);
      assert (parts + rest)[0] == parts[0] && (parts + rest)[1..] == parts[1..] + rest;
    }
  }

  lemma ComponentAccepted(name: Bytes)
    requires Component(name)
    ensures ClientPath(name)
  {
    PlainTextBytes(name);
    SplitPlain(name);
  }

  lemma SlashValid()
    ensures Utf8Valid([SLASH])
  {
    assert Utf8Valid([SLASH][1..]);
  }

  lemma JoinedAccepted(r: Bytes, name: Bytes)
    requires ClientPath(r) && Component(name)
    ensures ClientPath(r + [SLASH] + name)
  {
    hide Split, Utf8Valid, Component;
    ComponentAccepted(name);
    SplitJoined(r, name);
    SlashValid();
    Utf8Concat([SLASH], name);
    Utf8Concat(r, [SLASH] + name);
    assert r + [SLASH] + name == r + ([SLASH] + name);
    var all := r + [SLASH] + name;
    var parts := Split(r) + Split(name);
    forall i | 0 <= i < |parts| ensures PartOk(parts[i]) {
      if i >= |Split(r)| { assert parts[i] == Split(name)[i - |Split(r)|]; }
    }
  }

  /** Where a directory's own relative path ends: nowhere for the root, behind a component otherwise. */
  predicate Placed(path: Bytes, base: nat, r: Bytes) {
    if r == [] then |Join(path, [])| == base
    else ClientPath(r) && r[|r| - 1] != SLASH && |path| == base + |r| && path[base..] == r
  }

  lemma ChildPlaced(path: Bytes, base: nat, r: Bytes, name: Bytes)
    requires Placed(path, base, r) && Component(name)
    ensures var q := Drop(Join(path, name), base);
      q == (if r == [] then name else r + [SLASH] + name) && Placed(Join(path, name), base, q)
  {
    ComponentAccepted(name);
    PlainTextBytes(name);
    if r == [] {
      assert Join(path, name) == Join(path, []) + name;
    } else {
      JoinedAccepted(r, name);
      assert path[|path| - 1] == r[|r| - 1];
      assert Join(path, name) == path + [SLASH] + name;
      assert Join(path, name)[base..] == r + [SLASH] + name;
    }
  }

  /** A walk that can be completed begins with a visit that is accepted and goes on with two such walks. */
  lemma WalkStep(path: Bytes, children: seq<Child>, depth: nat, deep: bool)
    requires Blocking(Preorder(path, children, depth, deep), deep) == Ok
    ensures children == [] ==> Preorder(path, children, depth, deep) == []
    ensures children != [] ==>
              var c, p := children[0], Join(path, children[0].name);
              var inner := if deep && c.node.Dir? then Preorder(p, c.node.children, depth + 1, deep) else [];
              var outer := Preorder(path, children[1..], depth, deep);
              && Preorder(path, children, depth, deep) == [Visit(p, c.name, c.node, depth)] + (inner + outer)
              && Component(c.name) && c.name != [] && |p| < PATH_CAPACITY && !c.node.Special?
              && Blocking(inner, deep) == Ok && Blocking(outer, deep) == Ok
  {
    hide Component, Utf8Valid;
    if children != [] {
      var c, p := children[0], Join(path, children[0].name);
      var inner := if deep && c.node.Dir? then Preorder(p, c.node.children, depth + 1, deep) else [];
      var outer := Preorder(path, children[1..], depth, deep);
      FirstAccepted(Visit(p, c.name, c.node, depth), inner + outer, deep);
      Unempty(c.name);
      BlockingConcat(inner, outer, deep);
    }
  }

  lemma Unempty(name: Bytes)
    requires Component(name)
    ensures name != []
  {
    hide Utf8Valid;
  }

  lemma FirstAccepted(v: Visit, rest: seq<Visit>, deep: bool)
    requires Blocking([v] + rest, deep) == Ok
    ensures Verdict(v, deep) == Ok && Blocking(rest, deep) == Ok
  {
    hide Verdict;
    assert ([v] + rest)[1..] == rest;
  }

  /** Every path on a walk that can be completed is one the client accepts. */
  lemma {:induction false} WalkAccepted(path: Bytes, children: seq<Child>, depth: nat, deep: bool, base: nat, r: Bytes)
    requires Placed(path, base, r) && Blocking(Preorder(path, children, depth, deep), deep) == Ok
    ensures forall i :: 0 <= i < |Preorder(path, children, depth, deep)| ==>
              ClientPath(Drop(Preorder(path, children, depth, deep)[i].path, base))
              && |Preorder(path, children, depth, deep)[i].path| < PATH_CAPACITY
              && !Preorder(path, children, depth, deep)[i].node.Special?
    decreases children
  {
    hide ClientPath, Component, Preorder, Blocking, Placed, Utf8Valid, Verdict;
    WalkStep(path, children, depth, deep);
    if children != [] {
      var c, p := children[0], Join(path, children[0].name);
      var inner := if deep && c.node.Dir? then Preorder(p, c.node.children, depth + 1, deep) else [];
      var outer := Preorder(path, children[1..], depth, deep);
      var all := Preorder(path, children, depth, deep);
      ChildPlaced(path, base, r, c.name);
      if deep && c.node.Dir? {
        WalkAccepted(p, c.node.children, depth + 1, deep, base, Drop(p, base));
      }
      WalkAccepted(path, children[1..], depth, deep, base, r);
      assert ClientPath(Drop(p, base)) by { PlacedAccepted(p, base, Drop(p, base)); }
      forall i | 0 <= i < |all| ensures ClientPath(Drop(all[i].path, base)) && |all[i].path| < PATH_CAPACITY && !all[i].node.Special? {
        if 0 < i <= |inner| {
          assert all[i] == inner[i - 1];
        } else if i > |inner| {
          assert all[i] == outer[i - 1 - |inner|];
        }
      }
    }
  }

  lemma PlacedAccepted(path: Bytes, base: nat, r: Bytes)
    requires Placed(path, base, r) && r != []
    ensures ClientPath(r)
  {
  }

  lemma {:induction false} BlockingConcat(a: seq<Visit>, b: seq<Visit>, deep: bool)
    requires Blocking(a + b, deep) == Ok
    ensures Blocking(a, deep) == Ok && Blocking(b, deep) == Ok
  {
    if a == [] {
      assert a + b == b;
    } else {
      assert (a + b)[1..] == a[1..] + b;
      BlockingConcat(a[1..], b, deep);
    }
  }

  function Expected(visits: seq<Visit>, base: nat): seq<Listed> {
    if visits == [] then []
    else
      var v := visits[0];
      [Listed(Drop(v.path, base), v.node.Dir?, SizeOf(v.node))] + Expected(visits[1..], base)
  }

  predicate Listable(v: Visit, base: nat) {
    ClientPath(Drop(v.path, base)) && |v.path| < PATH_CAPACITY && !v.node.Special? && SizeOf(v.node) < U64_LIMIT
  }

  lemma TakeOfRecord(relative: Bytes, node: Node, rest: Bytes)
    requires ClientPath(relative) && |relative| < PATH_CAPACITY && !node.Special? && SizeOf(node) < U64_LIMIT
    ensures TakeRecord(TreeRecord(relative, node) + rest) == Record(Listed(relative, node.Dir?, SizeOf(node)), rest)
  {
    assert relative != [];
    hide Be, FromBe, Limit, ClientPath;
    Limits();
    var n := TREE_HEADER + |relative|;
    FromBeOfHeld(2, n);
    FromBeOfHeld(8, SizeOf(node));
    FromBeOfHeld(2, |relative|);
    RecordParts(relative, node, rest);
    hide TreeRecord;
  }

  lemma RecordParts(relative: Bytes, node: Node, rest: Bytes)
    ensures var (b, n) := (TreeRecord(relative, node) + rest, TREE_HEADER + |relative|);
      && b[..2] == Be(2, n) && b[2] == TypeOf(node) && b[3] == 0 && b[4..12] == Be(8, SizeOf(node))
      && b[12..14] == Be(2, |relative|) && b[14..n] == relative && b[n..] == rest
  {
    hide Be;
    Fields(Be(2, TREE_HEADER + |relative|), [TypeOf(node), 0], Be(8, SizeOf(node)), Be(2, |relative|), relative, rest);
  }

  /** A slice of bytes put together is the part that was put there. */
  lemma Middle(b: Bytes, before: Bytes, part: Bytes, after: Bytes)
    requires b == before + part + after
    ensures |before| + |part| <= |b| && b[|before|..|before| + |part|] == part && b[|before| + |part|..] == after
  {
  }

  lemma Fields(n: Bytes, kind: Bytes, size: Bytes, length: Bytes, name: Bytes, rest: Bytes)
    requires |n| == |kind| == |length| == 2 && |size| == 8
    ensures var b := n + kind + size + length + name + rest;
      && b[..2] == n && b[2] == kind[0] && b[3] == kind[1] && b[4..12] == size
      && b[12..14] == length && b[14..14 + |name|] == name && b[14 + |name|..] == rest
  {
    var b := n + kind + size + length + name + rest;
    assert b[..4] == n + kind;
    Middle(b, n + kind + size + length, name, rest);
    Middle(b, n + kind + size, length, name + rest);
    Middle(b, n + kind, size, length + name + rest);
  }

  /** The whole listing comes out as the walk went in: same entries, same order, nothing rejected. */
  lemma {:induction false} DrainOfTree(visits: seq<Visit>, base: nat)
    requires forall i :: 0 <= i < |visits| ==> Listable(visits[i], base)
    ensures Drain(TreeStream(visits, base)) == Drained(Expected(visits, base), [], false)
  {
    hide TakeRecord, TreeRecord;
    if visits != [] {
      TakeOfRecord(Drop(visits[0].path, base), visits[0].node, TreeStream(visits[1..], base));
      DrainOfTree(visits[1..], base);
    } else {
      assert TakeRecord([]) == Incomplete by { TakeNothing(); }
    }
  }

  lemma TakeNothing()
    ensures TakeRecord([]) == Incomplete
  {
  }

  // ----- The record loop

  class Lister {
    var pending: Bytes
    /** All bytes that ever arrived, and all entries listed from them. */
    ghost var arrived: Bytes
    ghost var listed: seq<Listed>

    ghost predicate Valid()
      reads this
    {
      Drain(arrived) == Drain(pending).(entries := listed + Drain(pending).entries)
    }

    constructor ()
      ensures Valid() && arrived == [] && listed == []
    {
      pending, arrived, listed := [], [], [];
    }

    /** Takes in one piece of the stream and lists every record it completes. */
    method Feed(data: Bytes) returns (ok: bool, entries: seq<Listed>)
      requires Valid() && TakeRecord(pending).Incomplete?
      modifies this
      ensures Valid() && arrived == old(arrived) + data && listed == old(listed) + entries
      ensures ok == TakeRecord(pending).Incomplete? && (!ok ==> TakeRecord(pending).Bad?)
    {
      hide TakeRecord, Drain;
      DrainMore(arrived, data);
      DrainOnce(pending);
      DrainMore(pending, data);
      pending, arrived := pending + data, arrived + data;
      entries, ok := [], true;
      assert listed + [] == listed;
      while true
        invariant Valid() && arrived == old(arrived) + data && listed == old(listed) + entries && ok
        decreases |pending|
      {
        DrainOnce(pending);
        match TakeRecord(pending) {
          case Incomplete =>
            return true, entries;
          case Bad =>
            return false, entries;
          case Record(e, rest) =>
            entries, pending, listed := entries + [e], rest, listed + [e];
        }
      }
    }
  }

  lemma DrainOnce(b: Bytes)
    ensures match TakeRecord(b)
            case Incomplete => Drain(b) == Drained([], b, false)
            case Bad => Drain(b) == Drained([], b, true)
            case Record(e, rest) => Drain(b) == Drain(rest).(entries := [e] + Drain(rest).entries)
  {
  }

  /** However the listing was cut into pieces, the client lists the walk in order and rejects nothing. */
  lemma ListedAsWalked(l: Lister, visits: seq<Visit>, base: nat)
    requires l.Valid() && l.arrived <= TreeStream(visits, base)
    requires forall i :: 0 <= i < |visits| ==> Listable(visits[i], base)
    ensures !TakeRecord(l.pending).Bad? && l.listed <= Expected(visits, base)
    ensures l.arrived == TreeStream(visits, base) && TakeRecord(l.pending).Incomplete? ==>
              l.pending == [] && l.listed == Expected(visits, base)
  {
    hide TakeRecord;
    var all := TreeStream(visits, base);
    DrainOfTree(visits, base);
    DrainMore(l.arrived, all[|l.arrived|..]);
    assert l.arrived + all[|l.arrived|..] == all;
    DrainOnce(l.pending);
  }

  /** Every entry met on a walk is the node its path names. */
  lemma {:induction false} WalkNodes(disk: Disk, path: Bytes, children: seq<Child>, depth: nat, deep: bool)
    requires Coherent(disk) && Nested(disk, path, children)
    ensures forall i :: 0 <= i < |Preorder(path, children, depth, deep)| ==> Known(disk, Preorder(path, children, depth, deep)[i])
    decreases children
  {
    if children != [] {
      var c, p := children[0], Join(path, children[0].name);
      var inner := if deep && c.node.Dir? then Preorder(p, c.node.children, depth + 1, deep) else [];
      var outer := Preorder(path, children[1..], depth, deep);
      var all := Preorder(path, children, depth, deep);
      assert all == [Visit(p, c.name, c.node, depth)] + (inner + outer);
      if deep && c.node.Dir? {
        assert Nested(disk, p, c.node.children);
        WalkNodes(disk, p, c.node.children, depth + 1, deep);
      }
      WalkNodes(disk, path, children[1..], depth, deep);
      hide Coherent, Nested;
      forall i | 0 <= i < |all| ensures Known(disk, all[i]) {
        if 0 < i <= |inner| {
          assert all[i] == inner[i - 1];
        } else if i > |inner| {
          assert all[i] == outer[i - 1 - |inner|];
        }
      }
    }
  }

  predicate Known(disk: Disk, v: Visit) { v.path in disk && disk[v.path] == v.node }

  /** A walk that can be completed meets only entries a client can be told about. */
  lemma WalkListable(disk: Disk, root: Bytes, deep: bool)
    requires Coherent(disk) && root in disk && disk[root].Dir?
    requires Blocking(Preorder(root, disk[root].children, 1, deep), deep) == Ok
    ensures forall i :: 0 <= i < |Preorder(root, disk[root].children, 1, deep)| ==>
              Listable(Preorder(root, disk[root].children, 1, deep)[i], |Join(root, [])|)
  {
    var base, children := |Join(root, [])|, disk[root].children;
    var visits := Preorder(root, children, 1, deep);
    WalkNodes(disk, root, children, 1, deep);
    WalkAccepted(root, children, 1, deep, base, []);
    hide Preorder, ClientPath, Blocking;
    forall i | 0 <= i < |visits| ensures Listable(visits[i], base) {
      assert Known(disk, visits[i]);
    }
  }

  /** The directory round trip: any walk that can be completed is listed exactly, however its stream is cut. */
  lemma ListingRoundTrip(l: Lister, disk: Disk, root: Bytes, flags: u8)
    requires l.Valid() && Coherent(disk) && root in disk && disk[root].Dir?
    requires BarOf(disk, root, TREE_STREAM, flags) == Ok && l.arrived <= StreamOf(disk, root, TREE_STREAM, flags)
    ensures var visits := Preorder(root, disk[root].children, 1, flags % 2 == 1);
      && !TakeRecord(l.pending).Bad? && l.listed <= Expected(visits, |Join(root, [])|)
      && (l.arrived == StreamOf(disk, root, TREE_STREAM, flags) && TakeRecord(l.pending).Incomplete? ==>
            l.pending == [] && l.listed == Expected(visits, |Join(root, [])|))
  {
    hide TakeRecord, Preorder, Listable, Blocking, Coherent, Expected, TreeStream;
    WalkListable(disk, root, flags % 2 == 1);
    ListedAsWalked(l, Preorder(root, disk[root].children, 1, flags % 2 == 1), |Join(root, [])|);
  }
}
