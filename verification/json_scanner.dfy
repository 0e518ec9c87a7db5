/**
 The scanner as it runs: a position moving over a text or over a part of it, proved against the grammar.
 */
module JsonScanner {
  import opened Words
  import opened Utf8
  import opened Tokens
  import opened JsonText
  import opened JsonDocs

  // ----- Octets of a character

  /** Encoding the value of a character gives its octets back. */
  lemma EncodedOf(b: Bytes)
    requires Utf8Length(b) > 1
    ensures Encoded(Utf8Value(b)) == Some(b[..Utf8Length(b)])
  {
    match Utf8Length(b)
    case 2 => TwoOctets(b);
    case 3 => ThreeOctets(b);
    case _ => FourOctets(b);
  }

  lemma TwoOctets(b: Bytes)
    requires Utf8Length(b) == 2
    ensures Encoded(Utf8Value(b)) == Some(b[..2])
  {
    assert b[..2] == [b[0], b[1]];
  }

  lemma ThreeOctets(b: Bytes)
    requires Utf8Length(b) == 3
    ensures Encoded(Utf8Value(b)) == Some(b[..3])
  {
    var x, y, z: int := b[0] - 0xE0, b[1] - 0x80, b[2] - 0x80;
    var cp := Utf8Value(b);
    assert cp == x * 0x1000 + (y * 0x40 + z) && 0 <= y * 0x40 + z < 0x1000;
    ModuloUnique(cp, 0x1000, x, y * 0x40 + z);
    ModuloUnique(cp, 0x40, x * 0x40 + y, z);
    ModuloUnique(x * 0x40 + y, 0x40, x, y);
    assert b[..3] == [b[0], b[1], b[2]];
  }

  lemma FourOctets(b: Bytes)
    requires Utf8Length(b) == 4
    ensures Encoded(Utf8Value(b)) == Some(b[..4])
  {
    var w, x, y, z: int := b[0] - 0xF0, b[1] - 0x80, b[2] - 0x80, b[3] - 0x80;
    var cp := Utf8Value(b);
    ModuloUnique(cp, 0x4_0000, w, x * 0x1000 + y * 0x40 + z);
    ModuloUnique(cp, 0x1000, w * 0x40 + x, y * 0x40 + z);
    ModuloUnique(w * 0x40 + x, 0x40, w, x);
    ModuloUnique(cp, 0x40, w * 0x1000 + x * 0x40 + y, z);
    ModuloUnique(w * 0x1000 + x * 0x40 + y, 0x40, w * 0x40 + x, y);
    assert b[..4] == [b[0], b[1], b[2], b[3]];
  }

  /** The number the first digits spell. */
  function HexSum(b: Bytes, n: nat): (v: int)
    requires n <= |b|
  {
    if n == 0 then 0 else HexSum(b, n - 1) * 0x10 + HexValue(b[n - 1])
  }

  lemma HexSumIs(b: Bytes)
    requires |b| >= 4
    ensures HexSum(b, 4) == HexValue(b[0]) * 0x1000 + HexValue(b[1]) * 0x100 + HexValue(b[2]) * 0x10 + HexValue(b[3])
  {
    hide HexValue;
    assert HexSum(b, 1) == HexSum(b, 0) * 0x10 + HexValue(b[0]);
    assert HexSum(b, 2) == HexSum(b, 1) * 0x10 + HexValue(b[1]);
    assert HexSum(b, 3) == HexSum(b, 2) * 0x10 + HexValue(b[2]);
  }

  function Prepend(s: Bytes, r: Option<(Bytes, Bytes)>): Option<(Bytes, Bytes)> {
    if r.None? then None else Some((s + r.value.0, r.value.1))
  }

  lemma CharsOn(s: Bytes, b: Bytes)
    requires b == [] || b[0] != QUOTE
    ensures Prepend(s, Chars(b)) == match Char(b) case None => None case Some((octets, rest)) => Prepend(s + octets, Chars(rest))
  {
    hide Char;
    if Char(b).Some? {
      var (octets, rest) := Char(b).value;
      if Chars(rest).Some? {
        Associate(s, octets, Chars(rest).value.0);
      }
    }
  }

  lemma Associate(a: Bytes, b: Bytes, c: Bytes)
    ensures a + (b + c) == (a + b) + c
  {
  }

  lemma CharsClose(s: Bytes, b: Bytes)
    requires b == [] || b[0] == QUOTE
    ensures Prepend(s, Chars(b)) == if b == [] then None else Some((s, b[1..]))
  {
    assert s + [] == s;
  }

  class Scanner {
    const text: Bytes
    var at: nat

    ghost predicate Valid()
      reads this
    {
      at <= |text|
    }

    ghost function Rest(): Bytes
      reads this
      requires Valid()
    {
      text[at..]
    }

    constructor (text: Bytes)
      ensures Valid() && at == 0 && Rest() == text && this.text == text
    {
      this.text, at := text, 0;
    }

    lemma Ahead(n: nat)
      requires Valid() && at + n <= |text|
      ensures Rest()[n..] == text[at + n..] && |Rest()| == |text| - at && forall i :: 0 <= i < n ==> Rest()[i] == text[at + i]
    {
    }

    method Ws()
      requires Valid()
      modifies this
      ensures Valid() && Rest() == Skip(old(Rest()))
    {
      while at < |text| && Blank(text[at])
        invariant Valid() && Skip(Rest()) == Skip(old(Rest()))
      {
        Ahead(1);
        at := at + 1;
      }
    }

    method FourDigits() returns (ok: bool, cp: nat)
      requires Valid()
      modifies this
      ensures Valid()
      ensures match Hex4(old(Rest())) case None => !ok case Some((v, rest)) => ok && cp == v && Rest() == rest
    {
      hide HexValue;
      ok, cp := false, 0;
      if |text| - at < 4 {
        return;
      }
      ghost var b := Rest();
      var i := 0;
      while i < 4
        invariant 0 <= i <= 4 && at == old(at) + i && cp == HexSum(b, i) && forall k :: 0 <= k < i ==> HexValue(b[k]) >= 0
      {
        assert text[at] == b[i];
        var d := HexValue(text[at]);
        at := at + 1;
        if d < 0 {
          return;
        }
        cp := cp * 0x10 + d;
        i := i + 1;
      }
      HexSumIs(b);
      assert b[4..] == text[at..];
      ok := true;
    }

    /** The scalar value behind a `u`. */
    method Scalar() returns (ok: bool, cp: nat)
      requires Valid()
      modifies this
      ensures Valid()
      ensures match Unicode(old(Rest())) case None => !ok case Some((v, rest)) => ok && cp == v && Rest() == rest
    {
      hide Hex4;
      ok, cp := FourDigits();
      if !ok || !(0xD800 <= cp <= 0xDBFF) {
        return;
      }
      if |text| - at < 6 || text[at] != ESCAPE || text[at + 1] != 'u' as int {
        return false, cp;
      }
      Ahead(2);
      at := at + 2;
      var low;
      ok, low := FourDigits();
      if !ok || low < 0xDC00 || low > 0xDFFF {
        return false, cp;
      }
      cp := 0x1_0000 + (cp - 0xD800) * 0x400 + low - 0xDC00;
    }

    /** What stands behind a backslash. */
    method Escape() returns (ok: bool, octets: Bytes)
      requires Valid()
      modifies this
      ensures Valid()
      ensures match Escaped(old(Rest())) case None => !ok case Some((o, rest)) => ok && octets == o && Rest() == rest
    {
      hide Unicode, Encoded;
      ok, octets := false, [];
      if at == |text| {
        return;
      }
      var c := text[at];
      Ahead(1);
      at := at + 1;
      if c == 'u' as int {
        var cp;
        ok, cp := Scalar();
        if ok {
          var e := Encoded(cp);
          ok, octets := e.Some?, if e.Some? then e.value else [];
        }
      } else if c == 'n' as int {
        ok, octets := true, [10];
      } else if c == 'r' as int {
        ok, octets := true, [13];
      } else if c == 't' as int {
        ok, octets := true, [9];
      } else if c == 'b' as int {
        ok, octets := true, [8];
      } else if c == 'f' as int {
        ok, octets := true, [12];
      } else if c == QUOTE || c == ESCAPE || c == '/' as int {
        ok, octets := true, [c];
      }
    }

    /** A character of several octets, put together and encoded again. */
    method Multiple() returns (ok: bool, octets: Bytes)
      requires Valid() && at < |text| && text[at] >= 0x80
      modifies this
      ensures Valid()
      ensures var b := old(Rest());
        if Utf8Length(b) == 0 then !ok else ok && octets == b[..Utf8Length(b)] && Rest() == b[Utf8Length(b)..]
    {
      hide Utf8Length, Utf8Value, Encoded;
      ghost var b := Rest();
      ok, octets := false, [];
      var lead := text[at];
      GrammarIs(b);
      var (n, minimum) := LeadMeaning(lead);
      if n == 0 || |text| - at < n {
        return;
      }
      var first := if n == 2 then lead % 0x20 else if n == 3 then lead % 0x10 else lead % 0x08;
      var good, value := Trailing(text, at, n, first);
      if !good || value < minimum || !(0 <= value <= 0x10FFFF) || 0xD800 <= value <= 0xDFFF {
        return;
      }
      EncodedOf(b);
      octets := Encoded(value).value;
      Ahead(n);
      at := at + n;
      ok := true;
    }

    /** One character of a string. */
    method Character() returns (ok: bool, octets: Bytes)
      requires Valid() && at < |text| && text[at] != QUOTE
      modifies this
      ensures Valid()
      ensures match Char(old(Rest())) case None => !ok case Some((o, rest)) => ok && octets == o && Rest() == rest
    {
      hide Escaped, Utf8Length;
      var c := text[at];
      if c < 32 {
        return false, [];
      }
      if c == ESCAPE {
        Ahead(1);
        at := at + 1;
        ok, octets := Escape();
      } else if c >= 0x80 {
        ok, octets := Multiple();
      } else {
        AsciiIs(Rest());
        assert Rest()[..1] == [c];
        Ahead(1);
        at := at + 1;
        ok, octets := true, [c];
      }
    }

    /** A string, kept if it fits `cap` bytes; without a limit it is only stepped over. */
    method Str(cap: Option<nat>) returns (ok: bool, s: Bytes)
      requires Valid()
      modifies this
      ensures Valid()
      ensures match (if cap.Some? then StrIn(old(Rest()), cap.value) else JsonText.Str(old(Rest())))
              case None => !ok
              case Some((t, rest)) => ok && s == t && Rest() == rest
    {
      hide Char, Chars;
      ok, s := false, [];
      if at == |text| || text[at] != QUOTE {
        return;
      }
      Ahead(1);
      at := at + 1;
      ghost var inner := Rest();
      StartsEmpty(Chars(inner));
      while at < |text| && text[at] != QUOTE
        invariant Valid() && (cap.Some? ==> |s| < cap.value || s == []) && Chars(inner) == Prepend(s, Chars(Rest()))
        decreases |text| - at
      {
        CharsOn(s, Rest());
        ghost var here := at;
        var octets;
        ok, octets := Character();
        if !ok {
          return;
        }
        s := s + octets;
        if cap.Some? && |s| >= cap.value {
          ok := false;
          return;
        }
      }
      CharsClose(s, Rest());
      if at == |text| || (cap.Some? && |s| >= cap.value) {
        ok := false;
        return;
      }
      Ahead(1);
      at := at + 1;
      ok := true;
    }

    // ----- Values

    method Run()
      requires Valid()
      modifies this
      ensures Valid() && Rest() == DigitRun(old(Rest()))
    {
      while at < |text| && Digit(text[at])
        invariant Valid() && DigitRun(Rest()) == DigitRun(old(Rest()))
      {
        Ahead(1);
        at := at + 1;
      }
    }

    /** A run of digits that must not be empty. */
    method Digits() returns (ok: bool)
      requires Valid()
      modifies this
      ensures Valid()
      ensures ok == (old(Rest()) != [] && Digit(old(Rest())[0])) && (ok ==> Rest() == DigitRun(old(Rest())))
    {
      if at == |text| || !Digit(text[at]) {
        return false;
      }
      Run();
      ok := true;
    }

    /** A number, fraction and exponent included. */
    method Number() returns (ok: bool)
      requires Valid()
      modifies this
      ensures Valid()
      ensures match AfterNumber(old(Rest())) case None => !ok case Some(rest) => ok && Rest() == rest
    {
      hide DigitRun, AfterFraction, AfterExponent;
      if at < |text| && text[at] == MINUS {
        Ahead(1);
        at := at + 1;
      }
      if at == |text| || !Digit(text[at]) {
        return false;
      }
      if text[at] == ZERO {
        Ahead(1);
        at := at + 1;
      } else {
        Ahead(1);
        RunOn(Rest());
        Run();
      }
      ok := Fraction();
      if ok {
        ok := Power();
      }
    }

    method Fraction() returns (ok: bool)
      requires Valid()
      modifies this
      ensures Valid()
      ensures match AfterFraction(old(Rest())) case None => !ok case Some(rest) => ok && Rest() == rest
    {
      hide DigitRun;
      if at == |text| || text[at] != POINT {
        return true;
      }
      Ahead(1);
      at := at + 1;
      ok := Digits();
    }

    method Power() returns (ok: bool)
      requires Valid()
      modifies this
      ensures Valid()
      ensures match AfterExponent(old(Rest())) case None => !ok case Some(rest) => ok && Rest() == rest
    {
      hide DigitRun;
      if at == |text| || !Exponent(text[at]) {
        return true;
      }
      Ahead(1);
      at := at + 1;
      if at < |text| && (text[at] == '+' as int || text[at] == MINUS) {
        Ahead(1);
        at := at + 1;
      }
      ok := Digits();
    }

    /** A literal or a number. */
    method Plain() returns (ok: bool)
      requires Valid()
      modifies this
      ensures Valid()
      ensures match AfterLiteral(old(Rest())) case None => !ok case Some(rest) => ok && Rest() == rest
    {
      hide AfterNumber, Text;
      var yes, no, nothing := Text("true"), Text("false"), Text("null");
      ghost var b := Rest();
      assert |text| - at >= 4 ==> b[..4] == text[at..at + 4];
      assert |text| - at >= 5 ==> b[..5] == text[at..at + 5];
      if |text| - at >= 4 && (text[at..at + 4] == yes || text[at..at + 4] == nothing) {
        Ahead(4);
        at := at + 4;
        return true;
      }
      if |text| - at >= 5 && text[at..at + 5] == no {
        Ahead(5);
        at := at + 5;
        return true;
      }
      ok := Number();
    }

    /** Steps over one value, whatever it is. */
    method Value(depth: nat) returns (ok: bool)
      requires Valid()
      modifies this
      ensures Valid()
      ensures match JsonText.Value(old(Rest()), depth) case None => !ok case Some(rest) => ok && Rest() == rest
      decreases |text| - at, 0
    {
      hide JsonText.Value, JsonText.Str, Skip, Entries, AfterLiteral, Chars;
      ghost var first := Rest();
      Ws();
      ValueAhead(first, depth);
      if at == |text| {
        return false;
      }
      if text[at] == QUOTE {
        var s;
        ok, s := Str(None);
        return;
      }
      if text[at] != LBRACE && text[at] != LBRACKET {
        ok := Plain();
        return;
      }
      if depth >= DEPTH_MAX {
        return false;
      }
      var braced := text[at] == LBRACE;
      var close := Close(braced);
      Ahead(1);
      at := at + 1;
      Ws();
      if at < |text| && text[at] == close {
        Ahead(1);
        at := at + 1;
        return true;
      }
      ok := Inside(braced, depth);
    }

    /** The entries of an object or an array up to its end. */
    method Inside(braced: bool, depth: nat) returns (ok: bool)
      requires Valid()
      modifies this
      ensures Valid()
      ensures match Entries(old(Rest()), braced, depth) case None => !ok case Some(rest) => ok && Rest() == rest
      decreases |text| - at, 2
    {
      hide JsonText.Value, Skip, Entries, Keyed;
      ghost var whole := Entries(Rest(), braced, depth);
      while true
        invariant Valid() && at >= old(at) && whole == Entries(Rest(), braced, depth)
        decreases |text| - at
      {
        EntriesStep(Rest(), braced, depth);
        ok := Entry(braced, depth);
        if !ok {
          return;
        }
        Ws();
        if at == |text| {
          return false;
        }
        if text[at] == Close(braced) {
          Ahead(1);
          at := at + 1;
          return true;
        }
        if text[at] != COMMA {
          return false;
        }
        Ahead(1);
        at := at + 1;
        Ws();
      }
    }

    /** One entry: its key in an object, and its value. */
    method Entry(braced: bool, depth: nat) returns (ok: bool)
      requires Valid()
      modifies this
      ensures Valid() && (ok ==> at > old(at))
      ensures var v := Keyed(old(Rest()), braced);
        if v == None || JsonText.Value(v.value, depth + 1) == None then !ok
        else ok && Rest() == JsonText.Value(v.value, depth + 1).value
      decreases |text| - at, 1
    {
      hide JsonText.Value, JsonText.Str, Skip;
      if braced {
        ok := Key();
        if !ok {
          return;
        }
      }
      ok := Value(depth + 1);
    }

    /** A key and the colon behind it. */
    method Key() returns (ok: bool)
      requires Valid()
      modifies this
      ensures Valid() && (ok ==> at > old(at))
      ensures match Keyed(old(Rest()), true) case None => !ok case Some(rest) => ok && Rest() == rest
    {
      hide JsonText.Str, Skip;
      var s;
      ok, s := Str(None);
      if !ok {
        return;
      }
      Ws();
      if at == |text| || text[at] != COLON {
        return false;
      }
      Ahead(1);
      at := at + 1;
    }
  }

  lemma RunOn(b: Bytes)
    requires b != [] && Digit(b[0])
    ensures DigitRun(b) == DigitRun(b[1..])
  {
  }

  /** A value starts behind the blanks ahead of it. */
  lemma ValueAhead(b: Bytes, depth: nat)
    ensures var w := Skip(b);
      JsonText.Value(b, depth) ==
      if w == [] then None
      else if w[0] == QUOTE then (match Str(w) case None => None case Some((_, rest)) => Some(rest))
      else if w[0] == LBRACE || w[0] == LBRACKET then
        if depth >= DEPTH_MAX then None
        else
          var braced, u := w[0] == LBRACE, Skip(w[1..]);
          if u != [] && u[0] == Close(braced) then Some(u[1..]) else Entries(u, braced, depth)
      else AfterLiteral(w)
  {
    hide Entries, AfterLiteral, Str, Skip;
  }

  lemma EntriesStep(b: Bytes, braced: bool, depth: nat)
    ensures var v := Keyed(b, braced);
      if v == None || JsonText.Value(v.value, depth + 1) == None then Entries(b, braced, depth) == None
      else
        var w := Skip(JsonText.Value(v.value, depth + 1).value);
        Entries(b, braced, depth) ==
        if w == [] then None
        else if w[0] == Close(braced) then Some(w[1..])
        else if w[0] == COMMA then Entries(Skip(w[1..]), braced, depth)
        else None
  {
    hide Keyed, JsonText.Value, Skip;
  }

  lemma StartsEmpty(r: Option<(Bytes, Bytes)>)
    ensures Prepend([], r) == r
  {
    if r.Some? {
      assert [] + r.value.0 == r.value.0;
    }
  }
}
