/**
 tar members as the firmware writes them: ustar headers and pax extended headers (IEEE Std
 1003.1, pax utility).
 */
module FsTar {
  import opened Words
  import opened FsTree

  const BLOCK := 512
  const OCTAL_MAX := 0x1_FFFF_FFFF
  const STAGE_SIZE := 2048
  const PAX_AREA := 1024
  const SPACE: u8 := ' ' as int
  const FILE_TYPE: u8 := '0' as int
  const DIR_TYPE: u8 := '5' as int
  const PAX_TYPE: u8 := 'x' as int

  /** `v` in octal, zero-filled to `width` digits. */
  function Octal(width: nat, v: nat): (b: Bytes)
    ensures |b| == width && forall i :: 0 <= i < width ==> '0' as int <= b[i] <= '7' as int
  {
    if width == 0 then [] else Octal(width - 1, v / 8) + ['0' as int + v % 8]
  }

  // ----- pax records

  /** The record length that counts its own digits, searched upwards from `length`. */
  function PaxLengthFrom(base: nat, length: nat): (n: nat)
    requires base >= 3 && length <= base + |Decimal(length)|
    ensures n == base + |Decimal(n)| && length <= n
    decreases 2 * base - length
  {
    var next := base + |Decimal(length)|;
    if next == length then length
    else
      DecimalGrows(length, next);
      LengthBounded(base, next);
      PaxLengthFrom(base, next)
  }

  lemma LengthBounded(base: nat, length: nat)
    requires base >= 3 && length <= base + |Decimal(length)|
    ensures length <= 2 * base
  {
    DecimalShort(length);
  }

  function PaxBase(key: Bytes, value: Bytes): (n: nat) { |key| + |value| + 3 }

  function PaxRecord(key: Bytes, value: Bytes): (b: Bytes) {
    Decimal(PaxLengthFrom(PaxBase(key, value), PaxBase(key, value) + 1))
    + [SPACE] + key + ['=' as int] + value + ['\n' as int]
  }

  /** Every record begins with its own length in decimal, and no shorter record could. */
  lemma PaxRecordCountsItself(key: Bytes, value: Bytes)
    ensures var b := PaxRecord(key, value);
      && b == Decimal(|b|) + [SPACE] + key + ['=' as int] + value + ['\n' as int]
      && forall n :: 0 <= n < |b| ==> n != PaxBase(key, value) + |Decimal(n)|
  {
    var base := PaxBase(key, value);
    forall n | 0 <= n < |PaxRecord(key, value)| ensures n != base + |Decimal(n)| {
      if n == base + |Decimal(n)| {
        LeastLength(base, base + 1, n);
      }
    }
  }

  lemma {:induction false} LeastLength(base: nat, length: nat, n: nat)
    requires base >= 3 && length <= base + |Decimal(length)| && length <= n == base + |Decimal(n)|
    ensures PaxLengthFrom(base, length) <= n
    decreases 2 * base - length
  {
    var next := base + |Decimal(length)|;
    DecimalGrows(length, n);
    if next != length {
      DecimalGrows(length, next);
      LengthBounded(base, next);
      LeastLength(base, next, n);
    }
  }

  // ----- Headers

  const PERMISSIONS_FILE := "0000644"
  const PERMISSIONS_DIR := "0000755"

  /** The first 148 bytes of a header: everything ahead of the checksum. */
  function HeaderFront(name: Bytes, type_: u8, size: nat): (b: Bytes)
    requires |name| <= 100
    ensures |b| == 148
  {
    name + Zeros(100 - |name|)
    + (Text(if type_ == DIR_TYPE then PERMISSIONS_DIR else PERMISSIONS_FILE) + [0])
    + (Text("0000000") + [0]) + (Text("0000000") + [0])
    + (Octal(11, size) + [0]) + (Text("00000000000") + [0])
  }

  /** The 356 bytes behind the checksum. */
  function HeaderBack(type_: u8): (b: Bytes)
    ensures |b| == 356
  {
    [type_] + Zeros(100) + (Text("ustar") + [0]) + Text("00") + Zeros(247)
  }

  function Sum(b: Bytes): nat { if b == [] then 0 else Sum(b[..|b| - 1]) + b[|b| - 1] }

  function Spaces(): (b: Bytes)
    ensures |b| == 8
  {
    [SPACE, SPACE, SPACE, SPACE, SPACE, SPACE, SPACE, SPACE]
  }

  function Checksum(name: Bytes, type_: u8, size: nat): nat
    requires |name| <= 100
  {
    Sum(HeaderFront(name, type_, size) + Spaces() + HeaderBack(type_))
  }

  function TarHeader(name: Bytes, type_: u8, size: nat): (b: Bytes)
    requires |name| <= 100
    ensures |b| == BLOCK
  {
    HeaderFront(name, type_, size) + (Octal(6, Checksum(name, type_, size)) + [0, SPACE]) + HeaderBack(type_)
  }

  // ----- Members

  function PaddingOf(size: nat): (n: nat)
    ensures n < BLOCK && (size + n) % BLOCK == 0
  {
    (BLOCK - size % BLOCK) % BLOCK
  }

  predicate Ascii(b: Bytes) { forall i :: 0 <= i < |b| ==> b[i] < 128 }

  function MemberName(relative: Bytes, dir: bool): Bytes { relative + if dir then [FsNames.SLASH] else [] }

  predicate Extended(name: Bytes, size: nat) { |name| >= 100 || size > OCTAL_MAX || !Ascii(name) }

  function PaxBody(name: Bytes, size: nat): Bytes {
    PaxRecord(Text("path"), name) + if size > OCTAL_MAX then PaxRecord(Text("size"), Decimal(size)) else []
  }

  function PaxName(): (b: Bytes)
    ensures |b| == 9
  {
    Text("PaxHeader")
  }

  function EntryName(): (b: Bytes)
    ensures |b| == 5
  {
    Text("entry")
  }

  /** Everything ahead of a member's contents. */
  function MemberHead(relative: Bytes, dir: bool, size: nat): Bytes {
    var name, type_ := MemberName(relative, dir), if dir then DIR_TYPE else FILE_TYPE;
    if Extended(name, size) then
      var body := PaxBody(name, size);
      TarHeader(PaxName(), PAX_TYPE, |body|) + (body + Zeros(PaddingOf(|body|)))
      + TarHeader(EntryName(), type_, if size > OCTAL_MAX then 0 else size)
    else TarHeader(name, type_, size)
  }

  function MemberData(node: Node): Bytes {
    if node.File? then node.contents + Zeros(PaddingOf(|node.contents|)) else []
  }

  function Members(visits: seq<Visit>, base: nat): Bytes {
    if visits == [] then []
    else
      MemberHead(Drop(visits[0].path, base), visits[0].node.Dir?, SizeOf(visits[0].node))
      + (MemberData(visits[0].node) + Members(visits[1..], base))
  }

  function TarStream(visits: seq<Visit>, base: nat): Bytes { Members(visits, base) + Zeros(2 * BLOCK) }
}
