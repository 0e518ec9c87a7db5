/**
 Building tar metadata in place, in the reader's staging buffer.
 */
module FsStage {
  import opened Words
  import opened Buffers
  import opened FsTree
  import opened FsTar

  lemma {:induction false} ZerosSplit(a: nat, b: nat)
    ensures Zeros(a + b) == Zeros(a) + Zeros(b)
  {
    if b > 0 {
      ZerosSplit(a, b - 1);
      assert Zeros(a + b) == Zeros(a + (b - 1)) + [0];
    }
  }

  method Clear(out: array<u8>, at: nat, n: nat)
    requires at + n <= out.Length
    modifies out
    ensures out[..] == Over(old(out[..]), at, Zeros(n))
  {
    var i := 0;
    while i < n
      invariant 0 <= i <= n
      invariant out[..at + i] == old(out[..at]) + Zeros(i)
      invariant out[at + i..] == old(out[..])[at + i..]
    {
      out[at + i] := 0;
      i := i + 1;
    }
    assert out[..] == out[..at + n] + out[at + n..];
  }

  /** A cleared block of which `done` has been filled in. */
  function Partly(done: Bytes): (b: Bytes)
    requires |done| <= BLOCK
    ensures |b| == BLOCK
  {
    done + Zeros(BLOCK - |done|)
  }

  function Extend(done: Bytes, off: nat, b: Bytes): (r: Bytes)
    requires |done| <= off
    ensures |r| == off + |b|
  {
    done + Zeros(off - |done|) + b
  }

  lemma PlaceOver(done: Bytes, off: nat, b: Bytes)
    requires |done| <= off && off + |b| <= BLOCK
    ensures Over(Partly(done), off, b) == Partly(Extend(done, off, b))
  {
    ZerosSplit(off - |done|, BLOCK - off);
    ZerosSplit(|b|, BLOCK - off - |b|);
    hide Zeros;
    var w := Partly(done);
    assert w == done + Zeros(off - |done|) + Zeros(BLOCK - off);
    assert w[..off] == done + Zeros(off - |done|);
    assert w[off + |b|..] == Zeros(BLOCK - off - |b|);
  }

  /** One field further into the block. */
  method Place(out: array<u8>, at: nat, ghost done: Bytes, off: nat, b: Bytes) returns (ghost after: Bytes)
    requires at + BLOCK <= out.Length && |done| <= off && off + |b| <= BLOCK
    requires out[at..at + BLOCK] == Partly(done)
    modifies out
    ensures after == Extend(done, off, b) && out[at..at + BLOCK] == Partly(after)
    ensures out[..at] == old(out[..at]) && out[at + BLOCK..] == old(out[at + BLOCK..])
  {
    hide Zeros, Partly;
    after := Extend(done, off, b);
    PlaceOver(done, off, b);
    PutBytes(out, at + off, b);
    assert out[at..at + BLOCK] == Over(Partly(done), off, b);
  }

  method SumOf(out: array<u8>, at: nat, n: nat) returns (sum: nat)
    requires at + n <= out.Length
    ensures sum == Sum(out[at..at + n])
  {
    sum := 0;
    var i := 0;
    while i < n
      invariant 0 <= i <= n && sum == Sum(out[at..at + i])
    {
      assert out[at..at + i + 1] == out[at..at + i] + [out[at + i]];
      sum := sum + out[at + i];
      i := i + 1;
    }
  }

  /** The fields ahead of the checksum. */
  method WriteFront(out: array<u8>, at: nat, name: Bytes, type_: u8, size: nat) returns (ghost front: Bytes)
    requires at + BLOCK <= out.Length && |name| < 100
    modifies out
    ensures out[..at] == old(out[..at]) && out[at + BLOCK..] == old(out[at + BLOCK..])
    ensures |front| == 147 && front + [0] == HeaderFront(name, type_, size) && out[at..at + BLOCK] == Partly(front)
  {
    hide Zeros, Text, Octal, Partly, Extend, Over, HeaderFront;
    Clear(out, at, BLOCK);
    Cleared(out[..], old(out[..]), at);
    var permissions := Text(if type_ == DIR_TYPE then PERMISSIONS_DIR else PERMISSIONS_FILE);
    FrontExtends(name, permissions, Text("0000000"), Octal(11, size), Text("00000000000"));
    front := [];
    front := Place(out, at, front, 0, name);
    front := Place(out, at, front, 100, permissions);
    front := Place(out, at, front, 108, Text("0000000"));
    front := Place(out, at, front, 116, Text("0000000"));
    front := Place(out, at, front, 124, Octal(11, size));
    front := Place(out, at, front, 136, Text("00000000000"));
    FrontIs(name, type_, size);
  }

  /** The header with a blank checksum. */
  method WriteFields(out: array<u8>, at: nat, name: Bytes, type_: u8, size: nat)
    requires at + BLOCK <= out.Length && |name| < 100
    modifies out
    ensures out[..at] == old(out[..at]) && out[at + BLOCK..] == old(out[at + BLOCK..])
    ensures out[at..at + BLOCK] == HeaderFront(name, type_, size) + Spaces() + HeaderBack(type_)
  {
    hide Zeros, Text, Partly, Extend, Over, HeaderFront, HeaderBack, Spaces;
    ghost var front := WriteFront(out, at, name, type_, size);
    BackExtends(front, Spaces(), type_, Text("ustar"), Text("00"));
    ghost var d := Place(out, at, front, 148, Spaces());
    d := Place(out, at, d, 156, [type_]);
    d := Place(out, at, d, 257, Text("ustar"));
    d := Place(out, at, d, 263, Text("00"));
    BackIs(type_);
  }

  lemma Cleared(out: Bytes, before: Bytes, at: nat)
    requires at + BLOCK <= |out| == |before| && out == Over(before, at, Zeros(BLOCK))
    ensures out[at..at + BLOCK] == Partly([]) && out[..at] == before[..at] && out[at + BLOCK..] == before[at + BLOCK..]
  {
    hide Zeros;
  }

  lemma FrontExtends(name: Bytes, permissions: Bytes, id: Bytes, size: Bytes, time: Bytes)
    requires |name| < 100 && |permissions| == |id| == 7 && |size| == |time| == 11
    ensures var d := Extend(Extend(Extend(Extend(Extend(Extend([], 0, name), 100, permissions), 108, id), 116, id), 124, size), 136, time);
      |d| == 147 &&
      d + [0] == name + Zeros(100 - |name|) + (permissions + [0]) + (id + [0]) + (id + [0]) + (size + [0]) + (time + [0])
  {
    OneZero();
    hide Zeros;
  }

  lemma BackExtends(front: Bytes, spaces: Bytes, type_: u8, magic: Bytes, version: Bytes)
    requires |front| == 147 && |spaces| == 8 && |magic| == 5 && |version| == 2
    ensures var d := Extend(Extend(Extend(Extend(front, 148, spaces), 156, [type_]), 257, magic), 263, version);
      |d| == 265 &&
      Partly(d) == (front + [0]) + spaces + ([type_] + Zeros(100) + (magic + [0]) + version + Zeros(247))
  {
    OneZero();
    hide Zeros;
  }

  lemma FrontIs(name: Bytes, type_: u8, size: nat)
    requires |name| < 100
    ensures HeaderFront(name, type_, size) ==
            name + Zeros(100 - |name|)
            + (Text(if type_ == DIR_TYPE then PERMISSIONS_DIR else PERMISSIONS_FILE) + [0])
            + (Text("0000000") + [0]) + (Text("0000000") + [0])
            + (Octal(11, size) + [0]) + (Text("00000000000") + [0])
  {
  }

  lemma BackIs(type_: u8)
    ensures HeaderBack(type_) == [type_] + Zeros(100) + (Text("ustar") + [0]) + Text("00") + Zeros(247)
  {
  }

  lemma OneZero()
    ensures Zeros(0) == [] && Zeros(1) == [0]
  {
  }

  method WriteHeader(out: array<u8>, at: nat, name: Bytes, type_: u8, size: nat)
    requires at + BLOCK <= out.Length && |name| < 100
    modifies out
    ensures out[..] == Over(old(out[..]), at, TarHeader(name, type_, size))
  {
    hide HeaderFront, HeaderBack, Octal, Sum, Spaces, Over;
    ghost var before := out[..];
    WriteFields(out, at, name, type_, size);
    var sum := SumOf(out, at, BLOCK);
    assert sum == Checksum(name, type_, size);
    ghost var blank := out[..];
    PutBytes(out, at + 148, Octal(6, sum) + [0]);
    SpaceBehind(blank, at + 148, Octal(6, sum) + [0]);
    out[at + 155] := SPACE;
    ChecksumIn(before, blank, at, HeaderFront(name, type_, size), Spaces(), HeaderBack(type_), Octal(6, sum) + [0] + [SPACE]);
    assert Octal(6, sum) + [0] + [SPACE] == Octal(6, sum) + [0, SPACE];
  }

  lemma SpaceBehind(b: Bytes, at: nat, digits: Bytes)
    requires at + |digits| < |b|
    ensures Over(b, at, digits)[at + |digits| := SPACE] == Over(b, at, digits + [SPACE])
  {
  }

  lemma ChecksumIn(before: Bytes, blank: Bytes, at: nat, front: Bytes, spaces: Bytes, back: Bytes, digits: Bytes)
    requires |front| == 148 && |spaces| == |digits| == 8 && |back| == 356 && at + BLOCK <= |before| == |blank|
    requires blank[at..at + BLOCK] == front + spaces + back
    requires blank[..at] == before[..at] && blank[at + BLOCK..] == before[at + BLOCK..]
    ensures Over(blank, at + 148, digits) == Over(before, at, front + digits + back)
  {
    assert blank == before[..at] + (front + spaces + back) + before[at + BLOCK..];
    assert blank[..at + 148] == before[..at] + front;
    assert blank[at + 156..] == back + before[at + BLOCK..];
  }

  /** Writes a record where it fits, terminator included; reports no bytes where it does not. */
  method WritePaxRecord(out: array<u8>, at: nat, capacity: nat, key: Bytes, value: Bytes) returns (n: nat)
    requires at + capacity <= out.Length
    modifies out
    ensures n == if |PaxRecord(key, value)| < capacity then |PaxRecord(key, value)| else 0
    ensures n > 0 ==> out[..at + n] == old(out[..at]) + PaxRecord(key, value) && out[at + n] == 0
                      && out[at + n + 1..] == old(out[at + n + 1..])
    ensures n == 0 ==> out[at + capacity..] == old(out[at + capacity..]) && out[..at] == old(out[..at])
  {
    hide Decimal;
    var base := |key| + |value| + 3;
    var length := base + 1;
    while true
      invariant length <= base + |Decimal(length)|
      invariant PaxLengthFrom(base, base + 1) == PaxLengthFrom(base, length)
      invariant out[..] == old(out[..])
      decreases 2 * base - length
    {
      var next := base + |Decimal(length)|;
      if next == length {
        break;
      }
      DecimalGrows(length, next);
      LengthBounded(base, next);
      length := next;
    }
    var record := Decimal(length) + [SPACE] + key + ['=' as int] + value + ['\n' as int];
    assert record == PaxRecord(key, value);
    n := 0;
    if |record| < capacity {
      n := |record|;
      PutBytes(out, at, record + [0]);
    }
  }

  // ----- The metadata of one member

  lemma {:induction false} DecimalWidth(n: nat, width: nat)
    requires n < Power10(width) && width > 0
    ensures |Decimal(n)| <= width
  {
    if n >= 10 {
      DecimalWidth(n / 10, width - 1);
    }
  }

  function Power10(k: nat): nat { if k == 0 then 1 else 10 * Power10(k - 1) }

  lemma PaxLengthBound(key: Bytes, value: Bytes)
    ensures 9 * |PaxRecord(key, value)| <= 10 * (PaxBase(key, value) + 2)
  {
    PaxRecordCountsItself(key, value);
    DecimalShort(|PaxRecord(key, value)|);
  }

  /** The records of a member's extended header always fit their area. */
  lemma PaxBodyFits(name: Bytes, size: nat)
    requires |name| <= 512 && size < U64_LIMIT
    ensures |PaxRecord(Text("path"), name)| <= 600 && |PaxRecord(Text("size"), Decimal(size))| <= 40
  {
    hide PaxRecord, Decimal, Text, Power10;
    TwentyDigits();
    DecimalWidth(size, 20);
    PaxLengthBound(Text("path"), name);
    PaxLengthBound(Text("size"), Decimal(size));
  }

  lemma TwentyDigits()
    ensures Power10(20) > U64_LIMIT
  {
    hide Power10;
    FiveDigits(0);
    FiveDigits(5);
    FiveDigits(10);
    FiveDigits(15);
  }

  lemma FiveDigits(k: nat)
    ensures Power10(0) == 1 && Power10(k + 5) == 10_0000 * Power10(k)
  {
    assert Power10(k + 1) == 10 * Power10(k);
    assert Power10(k + 2) == 100 * Power10(k);
    assert Power10(k + 3) == 1000 * Power10(k);
    assert Power10(k + 4) == 1_0000 * Power10(k);
    assert Power10(k + 5) == 10_0000 * Power10(k);
  }

  method IsAscii(name: Bytes) returns (ascii: bool)
    ensures ascii == Ascii(name)
  {
    ascii := true;
    var i := 0;
    while i < |name|
      invariant 0 <= i <= |name| && ascii == Ascii(name[..i])
    {
      assert name[..i + 1] == name[..i] + [name[i]];
      if name[i] >= 128 {
        ascii := false;
      }
      i := i + 1;
    }
    assert name[..i] == name;
  }

  /** One more record in a cleared area, which has room for it. */
  method AppendRecord(out: array<u8>, at: nat, capacity: nat, key: Bytes, value: Bytes) returns (n: nat)
    requires at + capacity <= out.Length && |PaxRecord(key, value)| < capacity
    requires out[at..] == Zeros(out.Length - at)
    modifies out
    ensures n == |PaxRecord(key, value)|
    ensures out[..at + n] == old(out[..at]) + PaxRecord(key, value) && out[at + n..] == Zeros(out.Length - at - n)
  {
    hide PaxRecord, Zeros;
    PaxLengthBound(key, value);
    n := WritePaxRecord(out, at, capacity, key, value);
    RecordNotEmpty(key, value);
    ZerosSplit(n, out.Length - at - n);
    ZerosSplit(1, out.Length - at - n - 1);
    OneZero();
    assert old(out[..])[at..] == Zeros(n) + (Zeros(1) + Zeros(out.Length - at - n - 1));
    assert old(out[at + n + 1..]) == old(out[..])[at..][n + 1..];
    assert out[at + n..] == [out[at + n]] + out[at + n + 1..];
  }

  lemma RecordNotEmpty(key: Bytes, value: Bytes)
    ensures PaxRecord(key, value) != []
  {
  }

  lemma TailOf(s: Bytes, before: Bytes, body: Bytes, rest: Bytes)
    requires |before| + |body| <= |s|
    requires s[..|before| + |body|] == before + body && s[|before| + |body|..] == rest
    ensures s[|before|..] == body + rest
  {
    assert s == s[..|before| + |body|] + rest;
  }

  /** The records of the extended header, in a cleared staging area. */
  method WritePaxBody(out: array<u8>, name: Bytes, size: nat) returns (n: nat)
    requires out.Length == STAGE_SIZE && |name| <= 512 && size < U64_LIMIT
    requires out[..] == Zeros(STAGE_SIZE)
    modifies out
    ensures n == |PaxBody(name, size)| <= 640
    ensures out[BLOCK..] == PaxBody(name, size) + Zeros(STAGE_SIZE - BLOCK - n)
  {
    hide PaxRecord, Text, Decimal, Zeros;
    PaxBodyFits(name, size);
    ZerosSplit(BLOCK, STAGE_SIZE - BLOCK);
    ghost var before := out[..BLOCK];
    ghost var first := PaxRecord(Text("path"), name);
    n := AppendRecord(out, BLOCK, PAX_AREA, Text("path"), name);
    if size > OCTAL_MAX {
      ghost var second := PaxRecord(Text("size"), Decimal(size));
      var k := AppendRecord(out, BLOCK + n, PAX_AREA - n, Text("size"), Decimal(size));
      assert before + first + second == before + (first + second);
      n := n + k;
    }
    TailOf(out[..], before, PaxBody(name, size), out[BLOCK + n..]);
  }

  /** Everything ahead of a member's contents, staged in place. */
  method StageMember(out: array<u8>, relative: Bytes, dir: bool, size: nat) returns (n: nat)
    requires out.Length == STAGE_SIZE && |relative| < 512 && size < U64_LIMIT
    modifies out
    ensures n == |MemberHead(relative, dir, size)| <= STAGE_SIZE && 0 < n
    ensures out[..n] == MemberHead(relative, dir, size)
  {
    hide PaxBody, TarHeader, Text, Zeros;
    var name, type_ := MemberName(relative, dir), if dir then DIR_TYPE else FILE_TYPE;
    var ascii := IsAscii(name);
    Clear(out, 0, STAGE_SIZE);
    if |name| >= 100 || size > OCTAL_MAX || !ascii {
      var k := WritePaxBody(out, name, size);
      ghost var area := out[BLOCK..];
      WriteHeader(out, 0, PaxName(), PAX_TYPE, k);
      var offset := BLOCK + (k + 511) / 512 * 512;
      PaddedBody(area, PaxBody(name, size), k);
      assert out[BLOCK..] == area;
      ghost var head := out[..offset];
      assert head == TarHeader(PaxName(), PAX_TYPE, k) + area[..offset - BLOCK];
      WriteHeader(out, offset, EntryName(), type_, if size > OCTAL_MAX then 0 else size);
      n := offset + BLOCK;
      assert out[..n] == head + TarHeader(EntryName(), type_, if size > OCTAL_MAX then 0 else size);
    } else {
      WriteHeader(out, 0, name, type_, size);
      n := BLOCK;
    }
  }

  lemma PaddedBody(area: Bytes, body: Bytes, k: nat)
    requires k == |body| <= 640 && area == body + Zeros(STAGE_SIZE - BLOCK - k)
    ensures (k + 511) / 512 * 512 == k + PaddingOf(k) <= 1024
    ensures area[..k + PaddingOf(k)] == body + Zeros(PaddingOf(k))
  {
    var p := PaddingOf(k);
    assert k + p <= 1024;
    ZerosSplit(p, STAGE_SIZE - BLOCK - k - p);
    hide Zeros;
  }
}
