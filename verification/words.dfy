/**
 Fixed-width unsigned integers, and the big-endian field layouts of the DCP2 wire.
 */
module Words {

  type u8 = x: int | 0 <= x < 0x100
  type u16 = x: int | 0 <= x < 0x1_0000
  type u32 = x: int | 0 <= x < 0x1_0000_0000
  type u64 = x: int | 0 <= x < 0x1_0000_0000_0000_0000

  const U64_LIMIT: int := 0x1_0000_0000_0000_0000

  type Bytes = seq<u8>

  datatype Option<+T> = None | Some(value: T)

  /** The number of values that `width` bytes can hold. */
  function Limit(width: nat): (p: nat)
    ensures p >= 1
  {
    if width == 0 then 1 else 0x100 * Limit(width - 1)
  }

  lemma Limits()
    ensures Limit(1) == 0x100 && Limit(2) == 0x1_0000 && Limit(4) == 0x1_0000_0000 && Limit(8) == U64_LIMIT
  {
    assert Limit(4) == 0x1_0000_0000;
  }

  /** The low `width` bytes of `v`, most significant first. */
  function Be(width: nat, v: nat): (b: Bytes)
    ensures |b| == width
  {
    if width == 0 then [] else Be(width - 1, v / 0x100) + [v % 0x100]
  }

  function FromBe(b: Bytes): (v: nat)
    ensures v < Limit(|b|)
  {
    if b == [] then 0 else FromBe(b[..|b| - 1]) * 0x100 + b[|b| - 1]
  }

  lemma {:induction false} FromBeOfBe(width: nat, v: nat)
    ensures FromBe(Be(width, v)) == v % Limit(width)
  {
    if width > 0 {
      var b := Be(width, v);
      assert b[..width - 1] == Be(width - 1, v / 0x100);
      FromBeOfBe(width - 1, v / 0x100);
      DivideModulo(v, Limit(width - 1));
    }
  }

  lemma FromBeOfHeld(width: nat, v: nat)
    requires v < Limit(width)
    ensures FromBe(Be(width, v)) == v
  {
    FromBeOfBe(width, v);
  }

  lemma DivideModulo(v: nat, m: nat)
    requires m > 0
    ensures v % (0x100 * m) == (v / 0x100 % m) * 0x100 + v % 0x100
  {
    var q, r := v / 0x100, v % 0x100;
    var k := q / m;
    assert q == k * m + q % m;
    assert v == k * (0x100 * m) + ((q % m) * 0x100 + r);
    assert 0 <= (q % m) * 0x100 + r < 0x100 * m;
    ModuloUnique(v, 0x100 * m, k, (q % m) * 0x100 + r);
  }

  lemma MultipleBounds(x: int, m: int)
    requires m > 0
    ensures x >= 1 ==> x * m >= m
    ensures x <= -1 ==> x * m <= -m
  {
  }

  lemma ModuloUnique(v: int, m: int, k: int, r: int)
    requires m > 0 && 0 <= r < m && v == k * m + r
    ensures v % m == r && v / m == k
  {
    MultipleBounds(v / m - k, m);
    assert (v / m - k) * m == r - v % m;
  }

  lemma {:induction false} BeOfFromBe(b: Bytes)
    ensures Be(|b|, FromBe(b)) == b
  {
    if b != [] {
      var init, last := b[..|b| - 1], b[|b| - 1];
      BeOfFromBe(init);
      assert FromBe(b) / 0x100 == FromBe(init) && FromBe(b) % 0x100 == last;
      assert b == init + [last];
    }
  }

  // ----- Layouts: consecutive big-endian fields of given widths

  function Size(layout: seq<nat>): nat {
    if layout == [] then 0 else layout[0] + Size(layout[1..])
  }

  function Pack(layout: seq<nat>, values: seq<nat>): (b: Bytes)
    requires |layout| == |values|
    ensures |b| == Size(layout)
    decreases values
  {
    if values == [] then [] else Be(layout[0], values[0]) + Pack(layout[1..], values[1..])
  }

  function Unpack(layout: seq<nat>, b: Bytes): (values: seq<nat>)
    requires |b| >= Size(layout)
    ensures |values| == |layout|
    ensures forall i :: 0 <= i < |values| ==> values[i] < Limit(layout[i])
  {
    if layout == [] then []
    else [FromBe(b[..layout[0]])] + Unpack(layout[1..], b[layout[0]..])
  }

  ghost predicate Held(layout: seq<nat>, values: seq<nat>)
  {
    |layout| == |values| && forall i :: 0 <= i < |values| ==> values[i] < Limit(layout[i])
  }

  lemma UnpackStep(layout: seq<nat>, head: Bytes, tail: Bytes)
    requires layout != [] && |head| == layout[0] && |tail| >= Size(layout[1..])
    ensures Unpack(layout, head + tail) == [FromBe(head)] + Unpack(layout[1..], tail)
  {
    assert (head + tail)[..layout[0]] == head && (head + tail)[layout[0]..] == tail;
  }

  lemma PackStep(layout: seq<nat>, values: seq<nat>)
    requires |layout| == |values| > 0
    ensures Pack(layout, values) == Be(layout[0], values[0]) + Pack(layout[1..], values[1..])
    ensures Size(layout) == layout[0] + Size(layout[1..])
  {
  }

  lemma SizeStep(layout: seq<nat>)
    requires layout != []
    ensures Size(layout) == layout[0] + Size(layout[1..])
  {
  }

  lemma NoFields()
    ensures Size([]) == 0 && Pack([], []) == [] && forall b :: Unpack([], b) == []
  {
  }

  lemma {:induction false} UnpackOfPack(layout: seq<nat>, values: seq<nat>, rest: Bytes)
    requires Held(layout, values)
    ensures Unpack(layout, Pack(layout, values) + rest) == values
  {
    hide Unpack, Pack, Size, Limit;
    if values == [] {
      NoFields();
    } else {
      var head, tail := Be(layout[0], values[0]), Pack(layout[1..], values[1..]);
      PackStep(layout, values);
      UnpackOfPack(layout[1..], values[1..], rest);
      FromBeOfHeld(layout[0], values[0]);
      UnpackStep(layout, head, tail + rest);
      assert (head + tail) + rest == head + (tail + rest);
    }
  }

  lemma {:induction false} PackOfUnpack(layout: seq<nat>, b: Bytes)
    requires |b| >= Size(layout)
    ensures Pack(layout, Unpack(layout, b)) == b[..Size(layout)]
  {
    if layout != [] {
      var w := layout[0];
      BeOfFromBe(b[..w]);
      PackOfUnpack(layout[1..], b[w..]);
      assert b[..Size(layout)] == b[..w] + b[w..][..Size(layout[1..])];
    }
  }

  lemma {:induction false} PackAppend(layout: seq<nat>, values: seq<nat>, width: nat, v: nat)
    requires |layout| == |values|
    ensures Pack(layout + [width], values + [v]) == Pack(layout, values) + Be(width, v)
  {
    if values == [] {
      assert Pack(layout + [width], values + [v]) == Be(width, v) + Pack([], []);
    } else {
      PackAppend(layout[1..], values[1..], width, v);
      assert (layout + [width])[1..] == layout[1..] + [width] && (values + [v])[1..] == values[1..] + [v];
    }
  }

  /** Two to the given power: the C expression `1 << bits` on an unbounded integer. */
  function Pow2(bits: nat): (p: nat)
    ensures p >= 1
  {
    if bits == 0 then 1 else 2 * Pow2(bits - 1)
  }

  lemma Pow2Of64()
    ensures Pow2(64) == U64_LIMIT
  {
    hide Pow2;
    Pow2Sixteen(0);
    Pow2Sixteen(16);
    Pow2Sixteen(32);
    Pow2Sixteen(48);
  }

  lemma Pow2Sixteen(b: nat)
    ensures Pow2(0) == 1 && Pow2(b + 16) == 0x1_0000 * Pow2(b)
  {
    assert Pow2(0) == 1;
    hide Pow2;
    Pow2Four(b);
    Pow2Four(b + 4);
    Pow2Four(b + 8);
    Pow2Four(b + 12);
  }

  lemma Pow2Four(b: nat)
    ensures Pow2(b + 4) == 16 * Pow2(b)
  {
    assert Pow2(b + 2) == 4 * Pow2(b);
  }

  lemma {:induction false} Pow2Add(a: nat, b: nat)
    ensures Pow2(a + b) == Pow2(a) * Pow2(b)
  {
    if b > 0 {
      Pow2Add(a, b - 1);
      assert Pow2(a + b) == 2 * Pow2(a + (b - 1));
      assert Pow2(a) * Pow2(b) == Pow2(a) * (2 * Pow2(b - 1));
    }
  }

  // ----- Text

  function Text(s: string): (b: Bytes)
    requires forall i :: 0 <= i < |s| ==> s[i] as int < 0x100
    ensures |b| == |s| && forall i :: 0 <= i < |s| ==> b[i] == s[i] as int
  {
    seq<u8>(|s|, i requires 0 <= i < |s| => s[i] as int)
  }

  function Decimal(n: nat): (b: Bytes)
    ensures 1 <= |b| && forall i :: 0 <= i < |b| ==> '0' as int <= b[i] <= '9' as int
  {
    (if n < 10 then [] else Decimal(n / 10)) + ['0' as int + n % 10]
  }

  /** A number's last digit, behind those of the rest. */
  lemma DecimalLast(n: nat)
    ensures Decimal(n) == (if n < 10 then [] else Decimal(n / 10)) + ['0' as int + n % 10]
  {
  }

  lemma {:induction false} DecimalShort(n: nat)
    ensures |Decimal(n)| <= 1 + n / 10
  {
    if n >= 10 {
      DecimalShort(n / 10);
    }
  }

  lemma {:induction false} DecimalGrows(a: nat, b: nat)
    requires a <= b
    ensures |Decimal(a)| <= |Decimal(b)|
  {
    if a >= 10 {
      DecimalGrows(a / 10, b / 10);
    }
  }

  lemma {:induction false} TextDistinct(s: string, t: string)
    requires (forall i :: 0 <= i < |s| ==> s[i] as int < 0x100) && (forall i :: 0 <= i < |t| ==> t[i] as int < 0x100)
    requires s != t
    ensures Text(s) != Text(t)
  {
    if |s| == |t| {
      var i :| 0 <= i < |s| && s[i] != t[i];
      assert Text(s)[i] != Text(t)[i];
    }
  }
}
