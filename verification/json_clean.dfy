/**
 Which bytes a JSON text cannot hold: what is accepted as a document has no control characters but tab, newline and
 carriage return, wherever they might stand.
 */
module JsonClean {
  import opened Words
  import opened Utf8
  import opened Tokens
  import opened JsonText
  import opened ProfileModel
  import opened ProfileParser

  const VERTICAL_TAB: u8 := 11
  const FORM_FEED: u8 := 12

  /** Neither of the two bytes that are white space to C and not to JSON. */
  predicate Clean(b: Bytes) { VERTICAL_TAB !in b && FORM_FEED !in b }

  /** What stands ahead of a clean end is all that matters. */
  lemma CleanFrom(b: Bytes, k: nat)
    requires k <= |b| && Clean(b[k..]) && forall i :: 0 <= i < k ==> b[i] >= 32 || Blank(b[i])
    ensures Clean(b)
  {
    forall c | c in b ensures c != VERTICAL_TAB && c != FORM_FEED {
      var i :| 0 <= i < |b| && b[i] == c;
      if i >= k {
        assert b[k..][i - k] == c;
      }
    }
  }

  lemma CleanOne(b: Bytes)
    requires b != [] && Clean(b[1..]) && (b[0] >= 32 || Blank(b[0]))
    ensures Clean(b)
  {
    hide Clean;
    CleanFrom(b, 1);
  }

  lemma {:induction false} SkipClean(b: Bytes)
    requires Clean(Skip(b))
    ensures Clean(b)
  {
    hide Clean;
    if b != [] && Blank(b[0]) {
      SkipClean(b[1..]);
      CleanOne(b);
    }
  }

  // ----- Strings

  lemma HexClean(b: Bytes)
    requires Hex4(b).Some? && Clean(Hex4(b).value.1)
    ensures Clean(b)
  {
    hide Clean;
    CleanFrom(b, 4);
  }

  lemma UnicodeClean(b: Bytes)
    requires Unicode(b).Some? && Clean(Unicode(b).value.1)
    ensures Clean(b)
  {
    hide Clean, Hex4;
    var (cp, rest) := Hex4(b).value;
    if 0xD800 <= cp <= 0xDBFF {
      HexClean(rest[2..]);
      CleanFrom(rest, 2);
    }
    HexClean(b);
  }

  lemma EscapedClean(b: Bytes)
    requires Escaped(b).Some? && Clean(Escaped(b).value.1)
    ensures Clean(b)
  {
    hide Clean, Unicode, Encoded;
    if b[0] == 'u' as int {
      UnicodeClean(b[1..]);
    }
    CleanOne(b);
  }

  lemma CharClean(b: Bytes)
    requires Char(b).Some? && Clean(Char(b).value.1)
    ensures Clean(b)
  {
    hide Clean, Escaped;
    if b[0] == ESCAPE {
      EscapedClean(b[1..]);
      CleanOne(b);
    } else {
      CleanFrom(b, Utf8Length(b));
    }
  }

  lemma {:induction false} CharsClean(b: Bytes)
    requires Chars(b).Some? && Clean(Chars(b).value.1)
    ensures Clean(b)
    decreases |b|
  {
    hide Clean, Char;
    if b != [] && b[0] == QUOTE {
      CleanOne(b);
    } else {
      CharsClean(Char(b).value.1);
      CharClean(b);
    }
  }

  lemma StrClean(b: Bytes)
    requires Str(b).Some? && Clean(Str(b).value.1)
    ensures Clean(b)
  {
    hide Clean, Chars;
    CharsClean(b[1..]);
    CleanOne(b);
  }

  // ----- Values

  lemma {:induction false} RunClean(b: Bytes)
    requires Clean(DigitRun(b))
    ensures Clean(b)
  {
    hide Clean;
    if b != [] && Digit(b[0]) {
      RunClean(b[1..]);
      CleanOne(b);
    }
  }

  lemma FractionClean(b: Bytes)
    requires AfterFraction(b).Some? && Clean(AfterFraction(b).value)
    ensures Clean(b)
  {
    hide Clean, DigitRun;
    if b != [] && b[0] == POINT {
      RunClean(b[1..]);
      CleanOne(b);
    }
  }

  lemma ExponentClean(b: Bytes)
    requires AfterExponent(b).Some? && Clean(AfterExponent(b).value)
    ensures Clean(b)
  {
    hide Clean, DigitRun;
    if b != [] && Exponent(b[0]) {
      var signed := |b| > 1 && (b[1] == '+' as int || b[1] == MINUS);
      RunClean(if signed then b[2..] else b[1..]);
      CleanFrom(b, if signed then 2 else 1);
    }
  }

  lemma NumberClean(b: Bytes)
    requires AfterNumber(b).Some? && Clean(AfterNumber(b).value)
    ensures Clean(b)
  {
    hide Clean, DigitRun, AfterFraction, AfterExponent;
    var u := if b[0] == MINUS then b[1..] else b;
    var v := if u[0] == ZERO then u[1..] else DigitRun(u[1..]);
    ExponentClean(AfterFraction(v).value);
    FractionClean(v);
    if u[0] != ZERO {
      RunClean(u[1..]);
    }
    CleanOne(u);
    if b[0] == MINUS {
      CleanOne(b);
    }
  }

  lemma LiteralClean(b: Bytes)
    requires AfterLiteral(b).Some? && Clean(AfterLiteral(b).value)
    ensures Clean(b)
  {
    hide Clean, AfterNumber, Text;
    WordClean("true", b);
    WordClean("null", b);
    WordClean("false", b);
    if AfterLiteral(b) == AfterNumber(b) {
      NumberClean(b);
    }
  }

  lemma WordClean(s: string, b: Bytes)
    requires forall i :: 0 <= i < |s| ==> 'a' <= s[i] <= 'z'
    ensures |Text(s)| == |s|
    ensures |s| <= |b| && b[..|s|] == Text(s) && Clean(b[|s|..]) ==> Clean(b)
  {
    hide Clean;
    if |s| <= |b| && b[..|s|] == Text(s) && Clean(b[|s|..]) {
      forall i | 0 <= i < |s| ensures b[i] >= 32 { assert b[i] == b[..|s|][i]; }
      CleanFrom(b, |s|);
    }
  }

  lemma {:induction false} ValueClean(b: Bytes, depth: nat)
    requires Value(b, depth).Some? && Clean(Value(b, depth).value)
    ensures Clean(b)
    decreases |b|, 0
  {
    hide Clean, Str, Entries, AfterLiteral, Skip;
    var w := Skip(b);
    if w[0] == QUOTE {
      StrClean(w);
    } else if w[0] == LBRACE || w[0] == LBRACKET {
      var u := Skip(w[1..]);
      if u != [] && u[0] == Close(w[0] == LBRACE) {
        CleanOne(u);
      } else {
        EntriesClean(u, w[0] == LBRACE, depth);
      }
      SkipClean(w[1..]);
      CleanOne(w);
    } else {
      LiteralClean(w);
    }
    SkipClean(b);
  }

  lemma KeyedClean(b: Bytes, braced: bool)
    requires Keyed(b, braced).Some? && Clean(Keyed(b, braced).value)
    ensures Clean(b)
  {
    hide Clean, Str, Skip;
    if braced {
      var rest := Str(b).value.1;
      CleanOne(Skip(rest));
      SkipClean(rest);
      StrClean(b);
    }
  }

  lemma {:induction false} EntriesClean(b: Bytes, braced: bool, depth: nat)
    requires Entries(b, braced, depth).Some? && Clean(Entries(b, braced, depth).value)
    ensures Clean(b)
    decreases |b|, 1
  {
    hide Clean, Keyed, Value, Skip;
    var v := Keyed(b, braced).value;
    var rest := Value(v, depth + 1).value;
    var w := Skip(rest);
    if w[0] == COMMA {
      EntriesClean(Skip(w[1..]), braced, depth);
      SkipClean(w[1..]);
    }
    CleanOne(w);
    SkipClean(rest);
    ValueClean(v, depth + 1);
    KeyedClean(b, braced);
  }

  /** A text with a vertical tab or a form feed in it, anywhere, is no document. */
  lemma DocumentClean(json: Bytes)
    requires Document(json).Good?
    ensures Clean(json) && |json| <= JSON_MAX
  {
    hide Clean, Value, Skip;
    var start := Skip(json);
    var rest := Value(start, 0).value;
    NothingUnclean();
    SkipClean(rest);
    ValueClean(start, 0);
    SkipClean(json);
  }

  lemma NothingUnclean()
    ensures Clean([])
  {
  }
}
