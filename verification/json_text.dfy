/**
 Strict JSON text as the profile reader takes it (RFC 8259, sections 4 to 7): values skipped, strings
 decoded, the members of an object picked out and the items of an array stepped through.
 */
module JsonText {
  import opened Words
  import opened Utf8
  import opened Tokens

  const DEPTH_MAX := 16
  const KEY_MAX := 64

  predicate Blank(c: u8) { c == BLANK || c == 9 || c == 10 || c == 13 }

  function Skip(b: Bytes): (r: Bytes)
    ensures |r| <= |b| && (r == [] || !Blank(r[0]))
  {
    if b != [] && Blank(b[0]) then Skip(b[1..]) else b
  }

  // ----- Strings

  function HexValue(c: u8): (v: int)
    ensures -1 <= v < 16
  {
    if Digit(c) then c as int - '0' as int
    else if 'a' as int <= c <= 'f' as int then c as int - 'a' as int + 10
    else if 'A' as int <= c <= 'F' as int then c as int - 'A' as int + 10
    else -1
  }

  /** Four hexadecimal digits. */
  function Hex4(b: Bytes): (r: Option<(nat, Bytes)>)
    ensures r.Some? ==> r.value.0 <= 0xFFFF && |r.value.1| == |b| - 4
  {
    if |b| < 4 || HexValue(b[0]) < 0 || HexValue(b[1]) < 0 || HexValue(b[2]) < 0 || HexValue(b[3]) < 0 then None
    else Some((HexValue(b[0]) * 0x1000 + HexValue(b[1]) * 0x100 + HexValue(b[2]) * 0x10 + HexValue(b[3]), b[4..]))
  }

  /** The octets of a scalar value; zero and surrogates have none. */
  function Encoded(cp: nat): (r: Option<Bytes>)
    ensures r.Some? ==> r.value != []
  {
    if cp == 0 || cp > 0x10FFFF || 0xD800 <= cp <= 0xDFFF then None
    else if cp < 0x80 then Some([cp])
    else if cp < 0x800 then Some([0xC0 + cp / 0x40, 0x80 + cp % 0x40])
    else if cp < 0x1_0000 then Some([0xE0 + cp / 0x1000, 0x80 + cp / 0x40 % 0x40, 0x80 + cp % 0x40])
    else Some([0xF0 + cp / 0x4_0000, 0x80 + cp / 0x1000 % 0x40, 0x80 + cp / 0x40 % 0x40, 0x80 + cp % 0x40])
  }

  /** The scalar value of a `\u` escape, surrogate pairs put together, with the bytes behind it. */
  function Unicode(b: Bytes): (r: Option<(nat, Bytes)>)
    ensures r.Some? ==> |r.value.1| < |b|
  {
    match Hex4(b)
    case None => None
    case Some((cp, rest)) =>
      if !(0xD800 <= cp <= 0xDBFF) then Some((cp, rest))
      else if |rest| < 6 || rest[0] != ESCAPE || rest[1] != 'u' as int then None
      else
        match Hex4(rest[2..])
        case None => None
        case Some((low, after)) =>
          if low < 0xDC00 || low > 0xDFFF then None else Some((0x1_0000 + (cp - 0xD800) * 0x400 + low - 0xDC00, after))
  }

  /** What stands behind a backslash. */
  function Escaped(b: Bytes): (r: Option<(Bytes, Bytes)>)
    ensures r.Some? ==> |r.value.1| < |b|
  {
    if b == [] then None
    else if b[0] == 'u' as int then
      match Unicode(b[1..])
      case None => None
      case Some((cp, rest)) =>
        match Encoded(cp)
        case None => None
        case Some(octets) => Some((octets, rest))
    else if b[0] == 'n' as int then Some(([10], b[1..]))
    else if b[0] == 'r' as int then Some(([13], b[1..]))
    else if b[0] == 't' as int then Some(([9], b[1..]))
    else if b[0] == 'b' as int then Some(([8], b[1..]))
    else if b[0] == 'f' as int then Some(([12], b[1..]))
    else if b[0] == QUOTE || b[0] == ESCAPE || b[0] == '/' as int then Some(([b[0]], b[1..]))
    else None
  }

  /** One character of a string: escaped, multi-octet or plain. */
  function Char(b: Bytes): (r: Option<(Bytes, Bytes)>)
    ensures r.Some? ==> |r.value.1| < |b|
  {
    if b == [] || b[0] < 32 then None
    else if b[0] == ESCAPE then Escaped(b[1..])
    else if Utf8Length(b) == 0 then None
    else Some((b[..Utf8Length(b)], b[Utf8Length(b)..]))
  }

  /** Characters up to the closing quote, with the bytes behind it. */
  function Chars(b: Bytes): (r: Option<(Bytes, Bytes)>)
    ensures r.Some? ==> |r.value.1| < |b|
    decreases |b|
  {
    if b != [] && b[0] == QUOTE then Some(([], b[1..]))
    else
      match Char(b)
      case None => None
      case Some((octets, rest)) =>
        match Chars(rest)
        case None => None
        case Some((s, after)) => Some((octets + s, after))
  }

  function Str(b: Bytes): (r: Option<(Bytes, Bytes)>)
    ensures r.Some? ==> |r.value.1| < |b|
  {
    if b != [] && b[0] == QUOTE then Chars(b[1..]) else None
  }

  /** A string that fits a buffer of `cap` bytes, terminator included. */
  function StrIn(b: Bytes, cap: nat): (r: Option<(Bytes, Bytes)>)
    ensures r.Some? ==> |r.value.1| < |b|
  {
    if Str(b).Some? && |Str(b).value.0| < cap then Str(b) else None
  }

  // ----- Values

  function DigitRun(b: Bytes): (r: Bytes)
    ensures |r| <= |b|
  {
    if b != [] && Digit(b[0]) then DigitRun(b[1..]) else b
  }

  function AfterFraction(b: Bytes): (r: Option<Bytes>)
    ensures r.Some? ==> |r.value| <= |b|
  {
    if b == [] || b[0] != POINT then Some(b)
    else if |b| > 1 && Digit(b[1]) then Some(DigitRun(b[1..]))
    else None
  }

  predicate Exponent(c: u8) { c == 'e' as int || c == 'E' as int }

  function AfterExponent(b: Bytes): (r: Option<Bytes>)
    ensures r.Some? ==> |r.value| <= |b|
  {
    if b == [] || !Exponent(b[0]) then Some(b)
    else
      var u := if |b| > 1 && (b[1] == '+' as int || b[1] == MINUS) then b[2..] else b[1..];
      if u != [] && Digit(u[0]) then Some(DigitRun(u)) else None
  }

  function AfterNumber(b: Bytes): (r: Option<Bytes>)
    ensures r.Some? ==> |r.value| < |b|
  {
    var u := if b != [] && b[0] == MINUS then b[1..] else b;
    if u == [] || !Digit(u[0]) then None
    else
      match AfterFraction(if u[0] == ZERO then u[1..] else DigitRun(u[1..]))
      case None => None
      case Some(v) => AfterExponent(v)
  }

  function AfterLiteral(b: Bytes): (r: Option<Bytes>)
    ensures r.Some? ==> |r.value| < |b|
  {
    if |b| >= 4 && (b[..4] == Text("true") || b[..4] == Text("null")) then Some(b[4..])
    else if |b| >= 5 && b[..5] == Text("false") then Some(b[5..])
    else AfterNumber(b)
  }

  function Close(braced: bool): u8 { if braced then RBRACE else RBRACKET }

  function Open(braced: bool): u8 { if braced then LBRACE else LBRACKET }

  /** What is left behind a value. */
  function Value(b: Bytes, depth: nat): (r: Option<Bytes>)
    ensures r.Some? ==> |r.value| < |b|
    decreases |b|, 0
  {
    var w := Skip(b);
    if w == [] then None
    else if w[0] == QUOTE then (match Str(w) case None => None case Some((_, rest)) => Some(rest))
    else if w[0] == LBRACE || w[0] == LBRACKET then
      if depth >= DEPTH_MAX then None
      else
        var braced, u := w[0] == LBRACE, Skip(w[1..]);
        if u != [] && u[0] == Close(braced) then Some(u[1..]) else Entries(u, braced, depth)
    else AfterLiteral(w)
  }

  /** Where the value of an entry starts: behind its key in an object. */
  function Keyed(b: Bytes, braced: bool): (r: Option<Bytes>)
    ensures r.Some? ==> |r.value| <= |b|
  {
    if !braced then Some(b)
    else
      match Str(b)
      case None => None
      case Some((_, rest)) =>
        var w := Skip(rest);
        if w != [] && w[0] == COLON then Some(w[1..]) else None
  }

  function Entries(b: Bytes, braced: bool, depth: nat): (r: Option<Bytes>)
    ensures r.Some? ==> |r.value| < |b|
    decreases |b|, 1
  {
    match Keyed(b, braced)
    case None => None
    case Some(v) =>
      match Value(v, depth + 1)
      case None => None
      case Some(rest) =>
        var w := Skip(rest);
        if w == [] then None
        else if w[0] == Close(braced) then Some(w[1..])
        else if w[0] == COMMA then Entries(Skip(w[1..]), braced, depth)
        else None
  }

  /** The bytes of `b` ahead of `rest`, which is its end. */
  function Ahead(b: Bytes, rest: Bytes): Bytes
    requires |rest| <= |b|
  {
    b[..|b| - |rest|]
  }

  // ----- The members of an object, the items of an array

  type Views = seq<Option<Bytes>>

  function Nothing(n: nat): (v: Views)
    ensures |v| == n && forall i :: 0 <= i < n ==> v[i] == None
  {
    if n == 0 then [] else Nothing(n - 1) + [None]
  }

  function IndexOf(keys: seq<Bytes>, key: Bytes): (i: nat)
    ensures i <= |keys| && (i < |keys| ==> keys[i] == key) && forall k :: 0 <= k < i ==> keys[k] != key
  {
    if keys == [] || keys[0] == key then 0 else 1 + IndexOf(keys[1..], key)
  }

  /** The values of an object's members by key; unknown and repeated keys are refused. */
  function Fields(text: Bytes, keys: seq<Bytes>): (r: Option<Views>)
    ensures r.Some? ==> |r.value| == |keys|
  {
    if text == [] || text[0] != LBRACE then None
    else
      var b := Skip(text[1..]);
      if b != [] && b[0] == RBRACE then (if |b| == 1 then Some(Nothing(|keys|)) else None)
      else FieldsFrom(b, keys, Nothing(|keys|))
  }

  function FieldsFrom(b: Bytes, keys: seq<Bytes>, got: Views): (r: Option<Views>)
    requires |got| == |keys|
    ensures r.Some? ==> |r.value| == |keys|
    decreases |b|
  {
    match StrIn(b, KEY_MAX)
    case None => None
    case Some((key, behind)) =>
      var i, c := IndexOf(keys, key), Skip(behind);
      if i == |keys| || got[i].Some? || c == [] || c[0] != COLON then None
      else
        var v := Skip(c[1..]);
        match Value(v, 1)
        case None => None
        case Some(rest) => FieldsAfter(Skip(rest), keys, got[i := Some(Ahead(v, rest))], |b|)
  }

  /** The object's end, or the comma ahead of its next member. */
  function FieldsAfter(w: Bytes, keys: seq<Bytes>, got: Views, bound: nat): (r: Option<Views>)
    requires |got| == |keys| && |w| < bound
    ensures r.Some? ==> |r.value| == |keys|
    decreases |w|, 1
  {
    if w == [] then None
    else if w[0] == RBRACE then (if |w| == 1 then Some(got) else None)
    else if w[0] == COMMA then FieldsFrom(Skip(w[1..]), keys, got)
    else None
  }

  datatype Step = Stop | Item(view: Bytes, rest: Bytes) | Broken

  /** The next item of an array, from its start or from behind the item before. */
  function Next(list: Bytes, from: Option<Bytes>): (s: Step)
    ensures s.Item? && from.Some? ==> |s.rest| < |from.value|
    ensures s.Item? && from.None? ==> |s.rest| < |list|
  {
    if from.None? then (if list == [] || list[0] != LBRACKET then Broken else ItemAt(Skip(list[1..])))
    else
      var w := Skip(from.value);
      if w != [] && w[0] == COMMA then ItemAt(Skip(w[1..]))
      else if w == [] || w[0] != RBRACKET then Broken
      else ItemAt(w)
  }

  function ItemAt(b: Bytes): (s: Step)
    ensures s.Item? ==> |s.rest| < |b|
  {
    if b != [] && b[0] == RBRACKET then (if |b| == 1 then Stop else Broken)
    else
      match Value(b, 1)
      case None => Broken
      case Some(rest) => Item(Ahead(b, rest), rest)
  }

  // ----- Views read

  /** Digits to the given base added to `n`, as long as the number stays within `max`. */
  function Tallied(b: Bytes, n: nat, max: nat, base: nat): (r: Option<nat>)
    requires n <= max && base > 0
    ensures r.Some? ==> r.value <= max
  {
    if b == [] then Some(n)
    else
      var d := HexValue(b[0]);
      if d < 0 || d >= base || d > max || n > (max - d) / base then None
      else
        DigitFits(n, d, max, base);
        Tallied(b[1..], n * base + d, max, base)
  }

  lemma DigitFits(n: nat, d: nat, max: nat, base: nat)
    requires base > 0 && d <= max && n <= (max - d) / base
    ensures n * base + d <= max
  {
    var q := (max - d) / base;
    assert n * base <= q * base;
    assert q * base <= max - d;
  }

  /** The text of a string view that fits a buffer and can be shown. */
  function Spelled(view: Option<Bytes>, cap: nat): (r: Option<Bytes>)
    ensures r.Some? ==> |r.value| < cap
  {
    if view == None then None
    else
      match StrIn(view.value, cap)
      case None => None
      case Some((s, rest)) => if rest == [] && Showable(s) then Some(s) else None
  }

  predicate Showable(s: Bytes) { forall i :: 0 <= i < |s| ==> s[i] >= 32 && s[i] != 127 }

  predicate Reads(view: Option<Bytes>, s: Bytes) { Spelled(view, KEY_MAX) == Some(s) }

  /** A plain decimal number without leading zeros. */
  function Counted(view: Option<Bytes>, max: nat): (r: Option<nat>)
    ensures r.Some? ==> r.value <= max
  {
    if view == None || view.value == [] || (|view.value| > 1 && view.value[0] == ZERO) then None
    else Tallied(view.value, 0, max, 10)
  }

  const HEX_CAP := 19

  /** A string of hexadecimal digits behind `0x`. */
  function Hexed(view: Option<Bytes>, max: nat): (r: Option<nat>)
    ensures r.Some? ==> r.value <= max
  {
    match Spelled(view, HEX_CAP)
    case None => None
    case Some(s) => if |s| < 3 || s[0] != ZERO || s[1] != 'x' as int then None else Tallied(s[2..], 0, max, 16)
  }

  function Flagged(view: Option<Bytes>): Option<bool> {
    if view == Some(Text("true")) then Some(true) else if view == Some(Text("false")) then Some(false) else None
  }

  /** The items of a list that may be absent. */
  function Following(list: Option<Bytes>, from: Option<Bytes>): (s: Step)
    ensures s.Item? ==> list.Some? && |s.rest| < if from.Some? then |from.value| else |list.value|
  {
    if list == None then Stop else Next(list.value, from)
  }

  predicate EmptyList(view: Option<Bytes>) { Following(view, None) == Stop }
}
