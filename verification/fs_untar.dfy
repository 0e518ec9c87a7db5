/**
 An independent reader of tar archives (IEEE Std 1003.1, pax utility: ustar interchange format and
 pax extended headers), and the proof that it recovers exactly what was walked.
 */
module FsUntar {
  import opened Words
  import opened FsNames
  import opened FsTree
  import opened FsTar
  import opened FsStage
  import opened FsReader
  import opened FsListing

  const EQUALS: u8 := '=' as int
  const NEWLINE: u8 := '\n' as int

  // ----- Numbers and strings in fields

  predicate OctalDigit(c: u8) { '0' as int <= c <= '7' as int }

  predicate DecimalDigit(c: u8) { '0' as int <= c <= '9' as int }

  function ReadOctal(b: Bytes): nat
    requires forall i :: 0 <= i < |b| ==> OctalDigit(b[i])
  {
    if b == [] then 0
    else
      var last := b[|b| - 1];
      assert OctalDigit(last);
      ReadOctal(b[..|b| - 1]) * 8 + (last as int - '0' as int)
  }

  function ReadDecimal(b: Bytes): nat
    requires forall i :: 0 <= i < |b| ==> DecimalDigit(b[i])
  {
    if b == [] then 0
    else
      var last := b[|b| - 1];
      assert DecimalDigit(last);
      ReadDecimal(b[..|b| - 1]) * 10 + (last as int - '0' as int)
  }

  function Power8(k: nat): nat { if k == 0 then 1 else 8 * Power8(k - 1) }

  lemma {:induction false} ReadOctalOf(width: nat, v: nat)
    requires v < Power8(width)
    ensures ReadOctal(Octal(width, v)) == v
  {
    if width > 0 {
      ReadOctalOf(width - 1, v / 8);
      var b := Octal(width, v);
      assert b[..width - 1] == Octal(width - 1, v / 8);
    }
  }

  lemma {:induction false} ReadDecimalOf(n: nat)
    ensures ReadDecimal(Decimal(n)) == n
  {
    hide ReadDecimal, Decimal;
    DecimalLast(n);
    ReadDecimalStep(if n < 10 then [] else Decimal(n / 10), '0' as int + n % 10);
    if n >= 10 {
      ReadDecimalOf(n / 10);
    }
  }

  lemma ReadDecimalStep(front: Bytes, last: u8)
    requires (forall i :: 0 <= i < |front| ==> DecimalDigit(front[i])) && DecimalDigit(last)
    ensures ReadDecimal([]) == 0
    ensures ReadDecimal(front + [last]) == ReadDecimal(front) * 10 + (last as int - '0' as int)
  {
    assert (front + [last])[..|front|] == front;
  }

  /** The bytes ahead of the first `stop`, or all of them. */
  function Upto(b: Bytes, stop: u8): (r: Bytes)
    ensures r <= b
  {
    if b == [] || b[0] == stop then [] else [b[0]] + Upto(b[1..], stop)
  }

  lemma {:induction false} UptoStop(a: Bytes, stop: u8, rest: Bytes)
    requires forall i :: 0 <= i < |a| ==> a[i] != stop
    requires rest == [] || rest[0] == stop
    ensures Upto(a + rest, stop) == a
  {
    if a == [] {
      assert a + rest == rest;
    } else {
      assert (a + rest)[1..] == a[1..] + rest;
      UptoStop(a[1..], stop, rest);
    }
  }

  // ----- Headers

  datatype Header = Header(name: Bytes, type_: u8, size: nat)

  ghost predicate AllZero(b: Bytes) { forall i :: 0 <= i < |b| ==> b[i] == 0 }

  predicate Octals(b: Bytes) { forall i :: 0 <= i < |b| ==> OctalDigit(b[i]) }

  /** A header block that names itself ustar and whose checksum is right. */
  function ReadHeader(b: Bytes): Option<Header>
    requires |b| == BLOCK
  {
    if b[257..263] != Text("ustar") + [0] || b[263..265] != Text("00") then None
    else if !Octals(b[148..154]) || !Octals(b[124..135]) then None
    else if ReadOctal(b[148..154]) != Sum(b[..148] + Spaces() + b[156..]) then None
    else Some(Header(Upto(b[..100], 0), b[156], ReadOctal(b[124..135])))
  }

  // ----- pax records

  datatype Pax = Pax(path: Option<Bytes>, size: Option<nat>)

  predicate Decimals(b: Bytes) { b != [] && forall i :: 0 <= i < |b| ==> DecimalDigit(b[i]) }

  /** The key, the value and the bytes behind one record. */
  function ReadRecord(b: Bytes): Option<(Bytes, Bytes, Bytes)> {
    var digits := Upto(b, SPACE);
    if !Decimals(digits) then None
    else
      var n := ReadDecimal(digits);
      if n > |b| || n < |digits| + 3 || b[n - 1] != NEWLINE then None
      else
        var text := b[|digits| + 1..n - 1];
        var key := Upto(text, EQUALS);
        if |key| == |text| then None else Some((key, text[|key| + 1..], b[n..]))
  }

  function ReadPax(b: Bytes, sofar: Pax): Option<Pax>
    decreases |b|
  {
    if b == [] then Some(sofar)
    else
      match ReadRecord(b)
      case None => None
      case Some((key, value, rest)) =>
        if |rest| >= |b| then None
        else if key == Text("path") then ReadPax(rest, sofar.(path := Some(value)))
        else if key == Text("size") && Decimals(value) then ReadPax(rest, sofar.(size := Some(ReadDecimal(value))))
        else ReadPax(rest, sofar)
  }

  // ----- Archives

  datatype Member = Member(path: Bytes, dir: bool, contents: Bytes)

  /** The header that counts for the next member, with the bytes behind it. */
  function ReadHead(b: Bytes): Option<(Header, Bytes)> {
    if |b| < BLOCK then None
    else
      match ReadHeader(b[..BLOCK])
      case None => None
      case Some(h) =>
        if h.type_ != PAX_TYPE then Some((h, b[BLOCK..]))
        else
          var padded := h.size + PaddingOf(h.size);
          if |b| < 2 * BLOCK + padded then None
          else
            match ReadPax(b[BLOCK..BLOCK + h.size], Pax(None, None))
            case None => None
            case Some(p) =>
              match ReadHeader(b[BLOCK + padded..2 * BLOCK + padded])
              case None => None
              case Some(g) =>
                Some((Header(if p.path.Some? then p.path.value else g.name, g.type_, if p.size.Some? then p.size.value else g.size),
                      b[2 * BLOCK + padded..]))
  }

  ghost function ReadTar(b: Bytes): Option<seq<Member>>
    decreases |b|
  {
    if |b| >= BLOCK && AllZero(b[..BLOCK]) then (if |b| == 2 * BLOCK && AllZero(b) then Some([]) else None)
    else
      match ReadHead(b)
      case None => None
      case Some((h, rest)) =>
        var padded := h.size + PaddingOf(h.size);
        if |rest| >= |b| then None
        else if h.type_ == DIR_TYPE && h.size == 0 then
          match ReadTar(rest)
          case None => None
          case Some(ms) => Some([Member(h.name, true, [])] + ms)
        else if h.type_ == FILE_TYPE && padded <= |rest| then
          match ReadTar(rest[padded..])
          case None => None
          case Some(ms) => Some([Member(h.name, false, rest[..h.size])] + ms)
        else None
  }

  // ----- Reading back what was written

  lemma HeaderFields(name: Bytes, type_: u8, size: nat)
    requires |name| < 100
    ensures var b := TarHeader(name, type_, size);
      && b[..100] == name + Zeros(100 - |name|) && b[124..135] == Octal(11, size)
      && b[148..154] == Octal(6, Checksum(name, type_, size)) && b[156] == type_
      && b[257..263] == Text("ustar") + [0] && b[263..265] == Text("00")
      && b[..148] == HeaderFront(name, type_, size) && b[156..] == HeaderBack(type_)
  {
    hide Zeros, Text, Octal, Checksum, HeaderFront, HeaderBack, TarHeader;
    var b := TarHeader(name, type_, size);
    var front, back := HeaderFront(name, type_, size), HeaderBack(type_);
    HeaderParts(name, type_, size);
    FrontIs(name, type_, size);
    BackIs(type_);
    assert front[..100] == name + Zeros(100 - |name|);
    assert front[124..135] == Octal(11, size);
    assert back[0] == type_ && back[101..107] == Text("ustar") + [0] && back[107..109] == Text("00");
    Within(b, 0, front, 0, 100);
    Within(b, 0, front, 124, 135);
    Within(b, 156, back, 101, 107);
    Within(b, 156, back, 107, 109);
  }

  /** A stretch of a part is a stretch of the whole. */
  lemma Within(b: Bytes, at: nat, part: Bytes, i: nat, j: nat)
    requires i <= j <= |part| && at + |part| <= |b| && b[at..at + |part|] == part
    ensures b[at + i..at + j] == part[i..j]
  {
    var l, r := b[at + i..at + j], part[i..j];
    forall k | 0 <= k < j - i ensures l[k] == r[k] {
      assert b[at..at + |part|][i + k] == part[i + k];
    }
    assert |l| == |r|;
  }

  lemma HeaderParts(name: Bytes, type_: u8, size: nat)
    requires |name| < 100
    ensures var b := TarHeader(name, type_, size);
      && |b| == 512 && b[..148] == HeaderFront(name, type_, size) && b[148..154] == Octal(6, Checksum(name, type_, size))
      && b[156..] == HeaderBack(type_)
  {
    hide Zeros, Text, Octal, Sum, Checksum, HeaderFront, HeaderBack;
  }

  lemma {:induction false} SumBound(b: Bytes)
    ensures Sum(b) <= 255 * |b|
  {
    if b != [] {
      SumBound(b[..|b| - 1]);
    }
  }

  lemma ChecksumFits(name: Bytes, type_: u8, size: nat)
    requires |name| <= 100
    ensures Checksum(name, type_, size) < Power8(6)
  {
    SumBound(HeaderFront(name, type_, size) + Spaces() + HeaderBack(type_));
  }

  predicate NoNul(b: Bytes) { forall i :: 0 <= i < |b| ==> b[i] != 0 }

  lemma ReadHeaderOf(name: Bytes, type_: u8, size: nat)
    requires |name| < 100 && NoNul(name) && size <= OCTAL_MAX
    ensures ReadHeader(TarHeader(name, type_, size)) == Some(Header(name, type_, size))
  {
    hide TarHeader, Octal, Text, Zeros, Sum, ReadOctal, HeaderFront, HeaderBack, Power8;
    HeaderFields(name, type_, size);
    assert Power8(11) > OCTAL_MAX by { PowersOf8(); }
    ReadOctalOf(11, size);
    ChecksumFits(name, type_, size);
    ReadOctalOf(6, Checksum(name, type_, size));
    UptoStop(name, 0, Zeros(100 - |name|));
  }

  lemma PowersOf8()
    ensures Power8(11) == OCTAL_MAX + 1
  {
    assert Power8(6) == 262144;
  }

  lemma ReadRecordOf(key: Bytes, value: Bytes, rest: Bytes)
    requires key != [] && forall i :: 0 <= i < |key| ==> key[i] != EQUALS
    ensures ReadRecord(PaxRecord(key, value) + rest) == Some((key, value, rest))
  {
    hide Decimal, PaxRecord, Upto;
    PaxRecordCountsItself(key, value);
    var record := PaxRecord(key, value);
    var n := |record|;
    var digits, b := Decimal(n), record + rest;
    var tail := key + [EQUALS] + value + [NEWLINE];
    assert record == digits + [SPACE] + tail;
    UptoStop(digits, SPACE, [SPACE] + tail + rest);
    assert b == digits + ([SPACE] + tail + rest);
    ReadDecimalOf(n);
    assert b[n - 1] == record[n - 1] == NEWLINE;
    var text := key + [EQUALS] + value;
    assert b[|digits| + 1..n - 1] == text;
    UptoStop(key, EQUALS, [EQUALS] + value);
    assert text == key + ([EQUALS] + value);
    assert text[|key| + 1..] == value && b[n..] == rest;
  }

  lemma ReadPaxStep(key: Bytes, value: Bytes, rest: Bytes, sofar: Pax)
    requires key == Text("path") || key == Text("size")
    requires key == Text("size") ==> Decimals(value)
    ensures ReadPax(PaxRecord(key, value) + rest, sofar) ==
            ReadPax(rest, if key == Text("path") then sofar.(path := Some(value)) else sofar.(size := Some(ReadDecimal(value))))
  {
    assert forall i :: 0 <= i < |key| ==> key[i] != EQUALS;
    hide PaxRecord, ReadRecord;
    ReadRecordOf(key, value, rest);
    RecordNotEmpty(key, value);
    assert PaxRecord(key, value) + rest != [];
  }

  lemma KeysDiffer()
    ensures Text("path") != Text("size")
  {
    assert Text("path")[0] != Text("size")[0];
  }

  lemma ReadPaxOf(name: Bytes, size: nat)
    ensures ReadPax(PaxBody(name, size), Pax(None, None)) ==
            Some(Pax(Some(name), if size > OCTAL_MAX then Some(size) else None))
  {
    hide PaxRecord, Text, Decimal, ReadPax;
    KeysDiffer();
    var start := Pax(None, None);
    if size > OCTAL_MAX {
      var second := PaxRecord(Text("size"), Decimal(size));
      ReadPaxStep(Text("path"), name, second, start);
      ReadDecimalOf(size);
      assert second + [] == second;
      ReadPaxStep(Text("size"), Decimal(size), [], start.(path := Some(name)));
      ReadPaxEnd(Pax(Some(name), Some(size)));
    } else {
      ReadPaxStep(Text("path"), name, [], start);
      ReadPaxEnd(Pax(Some(name), None));
      assert PaxRecord(Text("path"), name) + [] == PaxRecord(Text("path"), name);
    }
  }

  lemma ReadPaxEnd(p: Pax)
    ensures ReadPax([], p) == Some(p)
  {
  }

  lemma NamesAreText()
    ensures NoNul(PaxName()) && NoNul(EntryName())
  {
  }

  /** The metadata of a member, plain or extended, is read back as its name, type and size. */
  lemma ReadHeadOf(relative: Bytes, dir: bool, size: nat, rest: Bytes)
    requires NoNul(relative) && |relative| < PATH_CAPACITY && size < U64_LIMIT
    ensures ReadHead(MemberHead(relative, dir, size) + rest) ==
            Some((Header(MemberName(relative, dir), if dir then DIR_TYPE else FILE_TYPE, size), rest))
  {
    hide TarHeader, PaxBody, Text, ReadHeader, ReadPax, Zeros, PaxName, EntryName;
    NamesAreText();
    var name, type_ := MemberName(relative, dir), if dir then DIR_TYPE else FILE_TYPE;
    var b := MemberHead(relative, dir, size) + rest;
    if Extended(name, size) {
      var body, shown := PaxBody(name, size), if size > OCTAL_MAX then 0 else size;
      PaxBodyShort(name, size);
      ReadPaxOf(name, size);
      ReadHeaderOf(PaxName(), PAX_TYPE, |body|);
      ReadHeaderOf(EntryName(), type_, shown);
      ExtendedParts(body, TarHeader(PaxName(), PAX_TYPE, |body|), TarHeader(EntryName(), type_, shown), rest);
    } else {
      ReadHeaderOf(name, type_, size);
      assert b[..BLOCK] == TarHeader(name, type_, size) && b[BLOCK..] == rest;
    }
  }

  lemma PaxBodyShort(name: Bytes, size: nat)
    requires |name| <= 512 && size < U64_LIMIT
    ensures |PaxBody(name, size)| <= 640
  {
    hide PaxRecord, Decimal, Text;
    PaxBodyFits(name, size);
  }

  lemma ExtendedParts(body: Bytes, first: Bytes, second: Bytes, rest: Bytes)
    requires |first| == |second| == BLOCK
    ensures var k := |body|;
      var padded := k + PaddingOf(k);
      var b := first + (body + Zeros(PaddingOf(k))) + second + rest;
      && |b| >= 2 * BLOCK + padded && b[..BLOCK] == first && b[BLOCK..BLOCK + k] == body
      && b[BLOCK + padded..2 * BLOCK + padded] == second && b[2 * BLOCK + padded..] == rest
  {
    hide Zeros, PaddingOf;
  }

  // ----- The whole archive

  function Recovered(visits: seq<Visit>, base: nat): seq<Member> {
    if visits == [] then []
    else
      var v := visits[0];
      [Member(MemberName(Drop(v.path, base), v.node.Dir?), v.node.Dir?, if v.node.File? then v.node.contents else [])]
      + Recovered(visits[1..], base)
  }

  lemma HeadNotZero(relative: Bytes, dir: bool, size: nat)
    requires |relative| < PATH_CAPACITY
    ensures var b := MemberHead(relative, dir, size); |b| >= BLOCK && !AllZero(b[..BLOCK])
  {
    hide PaxBody, Zeros, PaxName, EntryName, TarHeader;
    var name, type_ := MemberName(relative, dir), if dir then DIR_TYPE else FILE_TYPE;
    var b := MemberHead(relative, dir, size);
    if Extended(name, size) {
      HeaderNotZero(PaxName(), PAX_TYPE, |PaxBody(name, size)|);
      assert b[..BLOCK] == TarHeader(PaxName(), PAX_TYPE, |PaxBody(name, size)|);
    } else {
      HeaderNotZero(name, type_, size);
      assert b[..BLOCK] == TarHeader(name, type_, size);
    }
  }

  lemma HeaderNotZero(name: Bytes, type_: u8, size: nat)
    requires |name| < 100
    ensures !AllZero(TarHeader(name, type_, size))
  {
    hide TarHeader;
    HeaderFields(name, type_, size);
    assert TarHeader(name, type_, size)[257..263][0] == Text("ustar")[0];
  }

  /** Any tar reader that follows the standard recovers the walk: every path, type, size and content, in order. */
  lemma {:induction false} ReadTarOf(visits: seq<Visit>, base: nat)
    requires forall i :: 0 <= i < |visits| ==> Listable(visits[i], base)
    ensures ReadTar(TarStream(visits, base)) == Some(Recovered(visits, base))
  {
    hide ClientPath, TarStream, ReadTar;
    if visits == [] {
      EndRead();
    } else {
      ReadTarOf(visits[1..], base);
      PathNoNul(Drop(visits[0].path, base));
      ReadMemberOf(visits[0], base, TarStream(visits[1..], base), Recovered(visits[1..], base));
      TarStreamStep(visits, base);
    }
  }

  lemma TarStreamStep(visits: seq<Visit>, base: nat)
    requires visits != []
    ensures var v := visits[0];
      TarStream(visits, base) ==
      MemberHead(Drop(v.path, base), v.node.Dir?, SizeOf(v.node)) + (MemberData(v.node) + TarStream(visits[1..], base))
  {
    hide MemberHead, MemberData, Zeros;
  }

  /** One member at the head of an archive, ahead of whatever the rest holds. */
  lemma ReadMemberOf(v: Visit, base: nat, tail: Bytes, rest: seq<Member>)
    requires NoNul(Drop(v.path, base)) && |v.path| < PATH_CAPACITY && !v.node.Special? && SizeOf(v.node) < U64_LIMIT
    requires ReadTar(tail) == Some(rest)
    ensures ReadTar(MemberHead(Drop(v.path, base), v.node.Dir?, SizeOf(v.node)) + (MemberData(v.node) + tail)) ==
            Some([Member(MemberName(Drop(v.path, base), v.node.Dir?), v.node.Dir?, if v.node.File? then v.node.contents else [])] + rest)
  {
    hide ReadTar, MemberHead, ReadHead, Zeros, PaddingOf, NoNul;
    var relative, dir, size := Drop(v.path, base), v.node.Dir?, SizeOf(v.node);
    var head, data := MemberHead(relative, dir, size), MemberData(v.node);
    var b, after := head + (data + tail), data + tail;
    ReadHeadOf(relative, dir, size, after);
    HeadNotZero(relative, dir, size);
    assert b[..BLOCK] == head[..BLOCK];
    NoPadding();
    if dir {
      assert after == tail;
      ReadDirMember(b, Header(MemberName(relative, dir), DIR_TYPE, 0), tail, rest);
    } else {
      var padding := PaddingOf(size);
      assert after[..size] == v.node.contents;
      assert after[size + padding..] == tail;
      ReadFileMember(b, Header(MemberName(relative, dir), FILE_TYPE, size), after, rest);
    }
  }

  lemma ReadDirMember(b: Bytes, h: Header, after: Bytes, rest: seq<Member>)
    requires |b| >= BLOCK && !AllZero(b[..BLOCK]) && ReadHead(b) == Some((h, after)) && |after| < |b|
    requires h.type_ == DIR_TYPE && h.size == 0 && ReadTar(after) == Some(rest)
    ensures ReadTar(b) == Some([Member(h.name, true, [])] + rest)
  {
    hide ReadHead, AllZero;
  }

  lemma ReadFileMember(b: Bytes, h: Header, after: Bytes, rest: seq<Member>)
    requires |b| >= BLOCK && !AllZero(b[..BLOCK]) && ReadHead(b) == Some((h, after)) && |after| < |b|
    requires h.type_ == FILE_TYPE && h.size + PaddingOf(h.size) <= |after|
    requires ReadTar(after[h.size + PaddingOf(h.size)..]) == Some(rest)
    ensures ReadTar(b) == Some([Member(h.name, false, after[..h.size])] + rest)
  {
    hide ReadHead, AllZero, PaddingOf;
  }

  lemma NoPadding()
    ensures PaddingOf(0) == 0
  {
  }

  lemma PathNoNul(path: Bytes)
    requires ClientPath(path)
    ensures NoNul(path)
  {
  }

  lemma EndRead()
    ensures ReadTar(TarStream([], 0)) == Some([])
    ensures forall base :: TarStream([], base) == TarStream([], 0)
  {
    assert TarStream([], 0) == Zeros(2 * BLOCK);
    assert AllZero(Zeros(2 * BLOCK)[..BLOCK]);
  }

  /** The archive is a whole number of blocks. */
  lemma {:induction false} TarInBlocks(visits: seq<Visit>, base: nat)
    ensures |TarStream(visits, base)| % BLOCK == 0
  {
    hide MemberHead, MemberData, Zeros;
    if visits != [] {
      var v := visits[0];
      var head, data := MemberHead(Drop(v.path, base), v.node.Dir?, SizeOf(v.node)), MemberData(v.node);
      TarInBlocks(visits[1..], base);
      HeadInBlocks(Drop(v.path, base), v.node.Dir?, SizeOf(v.node));
      DataInBlocks(v.node);
      assert |TarStream(visits, base)| == |head| + |data| + |TarStream(visits[1..], base)|;
    }
  }

  lemma DataInBlocks(node: Node)
    ensures |MemberData(node)| % BLOCK == 0
  {
    hide Zeros;
  }

  lemma HeadInBlocks(relative: Bytes, dir: bool, size: nat)
    ensures |MemberHead(relative, dir, size)| % BLOCK == 0
  {
    hide PaxBody, TarHeader, Zeros;
  }

  /** The tar round trip: a tree that can be walked to its end is archived whole. */
  lemma ArchiveRoundTrip(disk: Disk, root: Bytes)
    requires Coherent(disk) && root in disk && disk[root].Dir? && BarOf(disk, root, TAR_STREAM, 0) == Ok
    ensures ReadTar(StreamOf(disk, root, TAR_STREAM, 0)) ==
            Some(Recovered(Preorder(root, disk[root].children, 1, true), |Join(root, [])|))
    ensures |StreamOf(disk, root, TAR_STREAM, 0)| % BLOCK == 0
  {
    hide Preorder, Listable, ReadTar, TarStream, Recovered, Blocking;
    var visits := Preorder(root, disk[root].children, 1, true);
    WalkListable(disk, root, true);
    ReadTarOf(visits, |Join(root, [])|);
    TarInBlocks(visits, |Join(root, [])|);
  }
}
