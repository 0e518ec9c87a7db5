/**
 UTF-8 text: the grammar of RFC 3629, section 4, and the decoder that checks values instead.
 */
module Utf8 {
  import opened Words

  predicate Trail(c: u8) { 0x80 <= c <= 0xBF }

  /** The UTF8-char production of RFC 3629, section 4: how many octets the first character takes. */
  function Utf8Length(b: Bytes): (n: nat)
    ensures n <= 4 && n <= |b|
  {
    if |b| >= 1 && b[0] <= 0x7F then 1
    else if |b| >= 2 && 0xC2 <= b[0] <= 0xDF && Trail(b[1]) then 2
    else if |b| >= 3 && Trail(b[2]) &&
            (|| (b[0] == 0xE0 && 0xA0 <= b[1] <= 0xBF) || (0xE1 <= b[0] <= 0xEC && Trail(b[1]))
             || (b[0] == 0xED && 0x80 <= b[1] <= 0x9F) || (0xEE <= b[0] <= 0xEF && Trail(b[1]))) then 3
    else if |b| >= 4 && Trail(b[2]) && Trail(b[3]) &&
            (|| (b[0] == 0xF0 && 0x90 <= b[1] <= 0xBF) || (0xF1 <= b[0] <= 0xF3 && Trail(b[1]))
             || (b[0] == 0xF4 && 0x80 <= b[1] <= 0x8F)) then 4
    else 0
  }

  /** The scalar value of the first character. */
  function Utf8Value(b: Bytes): nat
    requires Utf8Length(b) > 0
  {
    match Utf8Length(b)
    case 1 => b[0]
    case 2 => (b[0] as int - 0xC0) * 0x40 + (b[1] as int - 0x80)
    case 3 => (b[0] as int - 0xE0) * 0x1000 + (b[1] as int - 0x80) * 0x40 + (b[2] as int - 0x80)
    case _ => (b[0] as int - 0xF0) * 0x4_0000 + (b[1] as int - 0x80) * 0x1000 + (b[2] as int - 0x80) * 0x40 + (b[3] as int - 0x80)
  }

  predicate Utf8Valid(b: Bytes) {
    b == [] || (Utf8Length(b) > 0 && Utf8Valid(b[Utf8Length(b)..]))
  }

  /** The payload bits of the first `i` of `n` octets. */
  function Gathered(b: Bytes, n: nat, i: nat): int
    requires 1 <= i <= n <= |b|
  {
    if i == 1 then b[0] as int - (if n == 2 then 0xC0 else if n == 3 then 0xE0 else 0xF0)
    else Gathered(b, n, i - 1) * 0x40 + (b[i - 1] as int) % 0x40
  }

  lemma GatheredIs(b: Bytes, n: nat)
    requires 2 <= n <= 4 && n <= |b| && forall k :: 1 <= k < n ==> Trail(b[k])
    ensures n == 2 ==> Gathered(b, n, n) == (b[0] as int - 0xC0) * 0x40 + (b[1] as int - 0x80)
    ensures n == 3 ==> Gathered(b, n, n) == (b[0] as int - 0xE0) * 0x1000 + (b[1] as int - 0x80) * 0x40 + (b[2] as int - 0x80)
    ensures n == 4 ==> Gathered(b, n, n) == (b[0] as int - 0xF0) * 0x4_0000 + (b[1] as int - 0x80) * 0x1000
                                            + (b[2] as int - 0x80) * 0x40 + (b[3] as int - 0x80)
  {
    forall k | 1 <= k < n ensures (b[k] as int) % 0x40 == b[k] as int - 0x80 { assert Trail(b[k]); }
    assert Gathered(b, n, 2) == Gathered(b, n, 1) * 0x40 + (b[1] as int - 0x80);
    if n > 2 {
      assert Gathered(b, n, 3) == Gathered(b, n, 2) * 0x40 + (b[2] as int - 0x80);
    }
    if n > 3 {
      assert Gathered(b, n, 4) == Gathered(b, n, 3) * 0x40 + (b[3] as int - 0x80);
    }
  }

  /** How many octets a lead octet announces, with the least value they may spell. */
  function LeadMeaning(lead: u8): (nat, int) {
    if 0xC2 <= lead <= 0xDF then (2, 0x80)
    else if 0xE0 <= lead <= 0xEF then (3, 0x800)
    else if 0xF0 <= lead <= 0xF4 then (4, 0x1_0000)
    else (0, 0)
  }

  predicate Trailed(b: Bytes, n: nat) { n <= |b| && forall k :: 1 <= k < n ==> Trail(b[k]) }

  /** The range checks on the decoded value draw the same line as the grammar. */
  lemma GrammarIs(b: Bytes)
    requires b != [] && b[0] >= 0x80
    ensures var (n, minimum) := LeadMeaning(b[0]);
      if n == 0 || !Trailed(b, n) then Utf8Length(b) == 0
      else
        var value := Gathered(b, n, n);
        if value < minimum || value > 0x10FFFF || 0xD800 <= value <= 0xDFFF then Utf8Length(b) == 0
        else Utf8Length(b) == n && Utf8Value(b) == value
  {
    var (n, minimum) := LeadMeaning(b[0]);
    if n > 0 && Trailed(b, n) {
      GatheredIs(b, n);
      hide Gathered;
      assert n > 1 ==> Trail(b[1]);
      assert n > 2 ==> Trail(b[2]);
      assert n > 3 ==> Trail(b[3]);
    } else {
      hide Gathered;
    }
  }

  lemma AsciiIs(b: Bytes)
    requires b != [] && b[0] < 0x80
    ensures Utf8Length(b) == 1 && Utf8Value(b) == b[0]
  {
  }

  /** The trailing octets of a character: each must continue it, and adds six bits. */
  method Trailing(data: Bytes, at: nat, n: nat, first: int) returns (ok: bool, value: int)
    requires 2 <= n <= 4 && at + n <= |data| && first == Gathered(data[at..], n, 1)
    ensures ok == Trailed(data[at..], n)
    ensures ok ==> value == Gathered(data[at..], n, n)
  {
    ghost var b := data[at..];
    value := first;
    var i := 1;
    while i < n
      invariant 1 <= i <= n && value == Gathered(b, n, i)
      invariant forall k :: 1 <= k < i ==> Trail(b[k])
    {
      assert data[at + i] == b[i];
      if !Trail(data[at + i]) {
        return false, value;
      }
      value := value * 0x40 + (data[at + i] as int) % 0x40;
      i := i + 1;
    }
    ok := true;
  }

  /** The decoder accepts exactly the characters of the grammar and yields their values. */
  method Utf8Decode(data: Bytes, at: nat) returns (ok: bool, used: nat, cp: nat)
    requires at <= |data|
    ensures ok == (Utf8Length(data[at..]) > 0)
    ensures ok ==> used == Utf8Length(data[at..]) && cp == Utf8Value(data[at..])
  {
    hide Utf8Length, Utf8Value;
    ok, used, cp := false, 0, 0;
    if at == |data| {
      NothingDecoded();
      return;
    }
    ghost var b := data[at..];
    var lead := data[at];
    if lead < 0x80 {
      AsciiIs(b);
      return true, 1, lead;
    }
    GrammarIs(b);
    var n: nat, value: int, minimum: int;
    if 0xC2 <= lead <= 0xDF {
      n, value, minimum := 2, lead % 0x20, 0x80;
    } else if 0xE0 <= lead <= 0xEF {
      n, value, minimum := 3, lead % 0x10, 0x800;
    } else if 0xF0 <= lead <= 0xF4 {
      n, value, minimum := 4, lead % 0x08, 0x1_0000;
    } else {
      return;
    }
    if |data| - at < n {
      return;
    }
    var good;
    good, value := Trailing(data, at, n, value);
    if !good || value < minimum || value > 0x10FFFF || 0xD800 <= value <= 0xDFFF {
      return;
    }
    return true, n, value;
  }

  lemma NothingDecoded()
    ensures Utf8Length([]) == 0
  {
  }

  lemma {:induction false} Utf8Concat(a: Bytes, b: Bytes)
    requires Utf8Valid(a) && Utf8Valid(b)
    ensures Utf8Valid(a + b)
    decreases |a|
  {
    if a == [] {
      assert a + b == b;
    } else {
      var n := Utf8Length(a);
      assert Utf8Length(a + b) == n;
      assert (a + b)[n..] == a[n..] + b;
      Utf8Concat(a[n..], b);
    }
  }
}
