/**
 Names on the file system boundary: path components and whole paths.
 */
module FsNames {
  import opened Words
  import opened Utf8

  datatype FsResult = Ok | Invalid | OutOfRange | NotFound | NotReady | TypeError | IoError | Changed | Busy | Unsupported

  const PATH_CAPACITY := 512
  const VOLUME_NAME_MAX := 16
  const SLASH: u8 := '/' as int
  const COLON: u8 := ':' as int
  const BACKSLASH: u8 := '\\' as int
  const DOT: u8 := '.' as int

  predicate ForbiddenChar(cp: nat) {
    cp < 32 || cp == 127 || cp in {'/' as nat, '\\' as nat, ':' as nat, '*' as nat, '?' as nat, '"' as nat,
                                   '<' as nat, '>' as nat, '|' as nat}
  }

  /** Well-formed UTF-8 without any character a path must not contain. */
  predicate PlainText(b: Bytes) {
    b == [] || (Utf8Length(b) > 0 && !ForbiddenChar(Utf8Value(b)) && PlainText(b[Utf8Length(b)..]))
  }

  predicate Component(b: Bytes) {
    b != [] && b != [DOT] && b != [DOT, DOT] && PlainText(b)
  }

  method CheckComponent(name: Bytes) returns (ok: bool)
    ensures ok == Component(name)
  {
    if |name| == 0 || (|name| == 1 && name[0] == DOT) || (|name| == 2 && name[0] == DOT && name[1] == DOT) {
      return false;
    }
    var pos := 0;
    while pos < |name|
      invariant 0 <= pos <= |name|
      invariant PlainText(name) == PlainText(name[pos..])
    {
      var good, used, cp := Utf8Decode(name, pos);
      if !good || ForbiddenChar(cp) {
        return false;
      }
      assert name[pos..][used..] == name[pos + used..];
      pos := pos + used;
    }
    ok := true;
  }

  // ----- Paths

  predicate VolumeChar(c: u8) { 'a' as int <= c <= 'z' as int || '0' as int <= c <= '9' as int || c == '-' as int }

  /** The pieces between separators, empty ones included. */
  function Split(b: Bytes): (parts: seq<Bytes>)
    ensures parts != []
  {
    if b == [] then [[]]
    else
      var parts := Split(b[1..]);
      if b[0] == SLASH then [[]] + parts else [[b[0]] + parts[0]] + parts[1..]
  }

  function VolumeLength(b: Bytes): (n: nat)
    ensures n <= |b|
    ensures forall i :: 0 <= i < n ==> VolumeChar(b[i])
    ensures n < |b| ==> !VolumeChar(b[n])
  {
    if b == [] || !VolumeChar(b[0]) then 0 else 1 + VolumeLength(b[1..])
  }

  /** Components separated by single slashes, with one more allowed at the end. */
  predicate Pieces(parts: seq<Bytes>)
    requires parts != []
  {
    && (forall i :: 0 <= i < |parts| - 1 ==> Component(parts[i]))
    && (parts[|parts| - 1] == [] || Component(parts[|parts| - 1]))
  }

  datatype Checked = Rejected(why: FsResult) | Path(path: Bytes)

  predicate HasRoot(b: Bytes) {
    var n := VolumeLength(b);
    0 < n < VOLUME_NAME_MAX && n + 1 < |b| && b[n] == COLON && b[n + 1] == SLASH
  }

  function ValidatePath(b: Bytes): Checked {
    var n := VolumeLength(b);
    if b == [] then Rejected(Invalid)
    else if |b| >= PATH_CAPACITY then Rejected(OutOfRange)
    else if !HasRoot(b) || !Pieces(Split(b[n + 2..])) then Rejected(Invalid)
    else if |b| > n + 2 && b[|b| - 1] == SLASH then Path(b[..|b| - 1])
    else Path(b)
  }

  /** The pieces still to be checked when the scan stands at `pos` in a component begun at `start`. */
  lemma {:induction false} SplitStep(b: Bytes, start: nat, pos: nat)
    requires start <= pos <= |b| && forall k :: start <= k < pos ==> b[k] != SLASH
    ensures var parts := Split(b[start..]);
      if pos == |b| then parts == [b[start..]]
      else b[pos] == SLASH ==> parts == [b[start..pos]] + Split(b[pos + 1..])
    decreases pos - start
  {
    var rest := b[start..];
    if start < pos {
      SplitStep(b, start + 1, pos);
      assert rest[1..] == b[start + 1..];
      assert [b[start]] + b[start + 1..] == rest;
      assert [b[start]] + b[start + 1..pos] == b[start..pos];
    } else if pos < |b| {
      assert rest[1..] == b[pos + 1..] && b[start..pos] == [];
    }
  }

  method CheckPath(data: Bytes) returns (r: Checked)
    ensures r == ValidatePath(data)
  {
    if |data| == 0 {
      return Rejected(Invalid);
    }
    if |data| >= PATH_CAPACITY {
      return Rejected(OutOfRange);
    }
    var colon := 0;
    while colon < |data| && data[colon] != COLON
      invariant 0 <= colon <= |data|
      invariant VolumeLength(data) == colon + VolumeLength(data[colon..])
      invariant forall k :: 0 <= k < colon ==> data[k] != COLON
    {
      if !VolumeChar(data[colon]) {
        return Rejected(Invalid);
      }
      assert data[colon..][1..] == data[colon + 1..];
      colon := colon + 1;
    }
    assert VolumeLength(data) == colon;
    if colon == 0 || colon >= VOLUME_NAME_MAX || colon + 1 >= |data| || data[colon + 1] != SLASH {
      return Rejected(Invalid);
    }
    var ok := CheckPieces(data, colon + 2);
    if !ok {
      return Rejected(Invalid);
    }
    r := Path(if |data| > colon + 2 && data[|data| - 1] == SLASH then data[..|data| - 1] else data);
  }

  lemma PiecesCons(first: Bytes, rest: seq<Bytes>)
    requires rest != []
    ensures Pieces([first] + rest) <==> Component(first) && Pieces(rest)
  {
    hide Component;
    var all := [first] + rest;
    assert all[|all| - 1] == rest[|rest| - 1];
    assert forall i :: 0 <= i < |rest| ==> all[i + 1] == rest[i];
    if Pieces(all) {
      assert all[0] == first;
      forall i | 0 <= i < |rest| - 1 ensures Component(rest[i]) { assert Component(all[i + 1]); }
    }
  }

  method CheckPieces(data: Bytes, root: nat) returns (ok: bool)
    requires root <= |data|
    ensures ok == Pieces(Split(data[root..]))
  {
    hide Component, Split, Pieces;
    var start, pos := root, root;
    while pos <= |data|
      invariant root <= start <= pos <= |data| + 1
      invariant pos <= |data| ==> forall k :: start <= k < pos ==> data[k] != SLASH
      invariant pos <= |data| ==> Pieces(Split(data[root..])) == Pieces(Split(data[start..]))
      invariant pos == |data| + 1 ==> Pieces(Split(data[root..]))
    {
      if pos == |data| || data[pos] == SLASH {
        SplitStep(data, start, pos);
        PiecesOne(data[start..]);
        if pos < |data| {
          PiecesCons(data[start..pos], Split(data[pos + 1..]));
        }
        assert pos == |data| ==> data[start..pos] == data[start..];
        if pos != start {
          var good := CheckComponent(data[start..pos]);
          if !good {
            return false;
          }
        } else if pos != |data| {
          NoEmptyComponent();
          assert data[start..pos] == [];
          return false;
        }
        start := pos + 1;
      }
      pos := pos + 1;
    }
    ok := true;
  }

  lemma PiecesOne(b: Bytes)
    ensures Pieces([b]) <==> b == [] || Component(b)
  {
  }

  lemma NoEmptyComponent()
    ensures !Component([])
  {
  }
}
