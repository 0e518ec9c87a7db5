/**
 What the older MDIO reader accepts, seen by the version gate: exactly when a configuration the reader takes is also
 accepted as a file. The gate looks at a text whose trailing blanks are cut off, so every step is compared with the
 same text cut short by `n` bytes.
 */
module MdioAccepted {
  import opened Words
  import opened Statuses
  import opened Tokens
  import opened JsonText
  import opened JsonDocs
  import opened JsonClean
  import opened ProfileModel
  import opened ProfileParser
  import opened SchemaProbe
  import ProfileRoundTrip
  import MdioConfig
  import MdioGrammar
  import MdioCodec
  import MdioFile

  /** All but the last `n` bytes. */
  function Cut(b: Bytes, n: nat): (r: Bytes)
    requires n <= |b|
    ensures |r| == |b| - n
  {
    b[..|b| - n]
  }

  lemma CutFirst(b: Bytes, n: nat)
    requires n < |b|
    ensures Cut(b, n) == [b[0]] + Cut(b[1..], n) && Cut(b, n)[0] == b[0] && Cut(b, n)[1..] == Cut(b[1..], n)
  {
  }

  lemma TailClean(b: Bytes)
    requires Clean(b) && b != []
    ensures Clean(b[1..])
  {
  }

  // ----- Tokens

  lemma {:induction false} SkipCut(b: Bytes, n: nat)
    requires Clean(b) && n <= |MdioGrammar.SkipWs(b)|
    ensures Skip(Cut(b, n)) == Cut(MdioGrammar.SkipWs(b), n) && Clean(MdioGrammar.SkipWs(b))
  {
    if b != [] && MdioGrammar.Space(b[0]) {
      assert Blank(b[0]);
      TailClean(b);
      CutFirst(b, n);
      SkipCut(b[1..], n);
    } else if n < |b| {
      CutFirst(b, n);
    }
  }

  lemma TakeCut(b: Bytes, c: u8, n: nat)
    requires Clean(b) && MdioGrammar.Take(b, c).Some? && n <= |MdioGrammar.Take(b, c).value|
    ensures var rest := MdioGrammar.Take(b, c).value;
      Skip(Cut(b, n)) == [c] + Cut(rest, n) && ([c] + Cut(rest, n))[1..] == Cut(rest, n) && Clean(rest)
  {
    hide Skip, MdioGrammar.SkipWs, Clean, Cut;
    var w := MdioGrammar.SkipWs(b);
    SkipCut(b, n);
    CutFirst(w, n);
    TailClean(w);
  }

  predicate Ascii(s: Bytes) { forall i :: 0 <= i < |s| ==> s[i] < 0x80 }

  lemma {:induction false} CharsCut(b: Bytes, room: nat, n: nat)
    requires Clean(b) && MdioGrammar.Chars(b, room).Some?
    requires var (s, rest) := MdioGrammar.Chars(b, room).value; Ascii(s) && n < |rest|
    ensures var (s, rest) := MdioGrammar.Chars(b, room).value;
      rest[0] == QUOTE && Chars(Cut(b, n)) == Some((s, Cut(rest[1..], n))) && Clean(rest)
  {
    hide Clean, Cut;
    CutFirst(b, n);
    TailClean(b);
    if b[0] != QUOTE {
      var (s, rest) := MdioGrammar.Chars(b[1..], room - 1).value;
      assert ([b[0]] + s)[0] == b[0] && ([b[0]] + s)[1..] == s;
      CharsCut(b[1..], room - 1, n);
      assert Cut(b, n)[..1] == [b[0]];
    }
  }

  lemma StringCut(b: Bytes, cap: nat, n: nat)
    requires Clean(b) && cap > 0 && MdioGrammar.ReadString(b, cap).Some?
    requires var (s, rest) := MdioGrammar.ReadString(b, cap).value; Ascii(s) && n <= |rest|
    ensures var (s, rest) := MdioGrammar.ReadString(b, cap).value;
      && Clean(rest) && |s| < cap
      && var w := Skip(Cut(b, n)); w != [] && w[0] == QUOTE && Str(w) == Some((s, Cut(rest, n)))
  {
    hide Clean, Cut, Skip, MdioGrammar.SkipWs, MdioGrammar.Chars, Chars;
    var inner := MdioGrammar.Take(b, QUOTE).value;
    var (s, rest) := MdioGrammar.Chars(inner, cap - 1).value;
    QuoteNext(inner, cap - 1);
    TakeCut(b, QUOTE, n);
    CharsCut(inner, cap - 1, n);
    TailClean(rest);
    CharsFit(inner, cap - 1);
  }

  /** Characters end at a quote or at the end of the text. */
  lemma {:induction false} QuoteNext(b: Bytes, room: nat)
    requires MdioGrammar.Chars(b, room).Some?
    ensures var rest := MdioGrammar.Chars(b, room).value.1;
      if rest == [] then MdioGrammar.Take(rest, QUOTE) == None else MdioGrammar.Take(rest, QUOTE) == Some(rest[1..])
  {
    if b != [] && b[0] != QUOTE {
      QuoteNext(b[1..], room - 1);
    }
  }

  lemma {:induction false} CharsFit(b: Bytes, room: nat)
    requires MdioGrammar.Chars(b, room).Some?
    ensures |MdioGrammar.Chars(b, room).value.0| <= room
  {
    if b != [] && b[0] != QUOTE {
      CharsFit(b[1..], room - 1);
    }
  }

  lemma {:induction false} DigitsCut(b: Bytes, v: nat, max: nat, n: nat)
    requires Clean(b) && v <= max && MdioGrammar.Digits(b, v, max).Some? && n <= |MdioGrammar.Digits(b, v, max).value.1|
    ensures var rest := MdioGrammar.Digits(b, v, max).value.1;
      DigitRun(Cut(b, n)) == Cut(rest, n) && Clean(rest)
  {
    hide Clean, Cut;
    if b != [] && Digit(b[0]) {
      var d := b[0] as int - '0' as int;
      MdioGrammar.DigitsStep(b, v, max);
      TailClean(b);
      CutFirst(b, n);
      DigitsCut(b[1..], v * 10 + d, max, n);
    } else if n < |b| {
      CutFirst(b, n);
    }
  }

  /** What stands behind a number that is taken back. */
  lemma CutEnds(rest: Bytes, n: nat)
    requires n <= |rest| && Ends(rest)
    ensures Ends(Cut(rest, n)) && AfterFraction(Cut(rest, n)) == Some(Cut(rest, n)) && AfterExponent(Cut(rest, n)) == Some(Cut(rest, n))
  {
  }

  lemma NumberCut(b: Bytes, max: nat, n: nat, depth: nat)
    requires Clean(b) && MdioGrammar.ReadNumber(b, max).Some?
    requires var rest := MdioGrammar.ReadNumber(b, max).value.1; n <= |rest| && Ends(rest)
    ensures var rest := MdioGrammar.ReadNumber(b, max).value.1;
      Value(Cut(b, n), depth) == Some(Cut(rest, n)) && Clean(rest)
  {
    hide Clean, Cut, Skip, MdioGrammar.SkipWs, MdioGrammar.Digits, DigitRun, AfterFraction, AfterExponent, Ends, Text, Entries, Str;
    var w := MdioGrammar.SkipWs(b);
    var d := w[0] as int - '0' as int;
    var rest := MdioGrammar.Digits(w[1..], d, max).value.1;
    SkipCut(b, n);
    CutFirst(w, n);
    TailClean(w);
    DigitsCut(w[1..], d, max, n);
    CutEnds(rest, n);
    NoWord("true", Cut(w, n));
    NoWord("null", Cut(w, n));
    NoWord("false", Cut(w, n));
    if w[0] == ZERO {
      MdioGrammar.DigitsStep(w[1..], d, max);
    }
  }

  /** A digit begins no word. */
  lemma NoWord(s: string, b: Bytes)
    requires s != [] && (forall i :: 0 <= i < |s| ==> 'a' <= s[i] <= 'z') && b != [] && Digit(b[0])
    ensures forall k :: 0 < k <= |b| ==> b[..k] != Text(s)
  {
    forall k | 0 < k <= |b| ensures b[..k] != Text(s) {
      assert b[..k][0] == b[0];
    }
  }

  lemma WordCut(s: string, b: Bytes, n: nat)
    requires s != [] && (forall i :: 0 <= i < |s| ==> 'a' <= s[i] <= 'z') && Clean(b) && MdioCodec.StartsWith(b, Text(s)).Some?
    requires n <= |MdioCodec.StartsWith(b, Text(s)).value| && |Text(s)| == |s|
    ensures var rest := MdioCodec.StartsWith(b, Text(s)).value;
      && Clean(rest)
      && var w := Skip(Cut(b, n));
         |w| >= |s| && w[..|s|] == Text(s) && w[|s|..] == Cut(rest, n) && 'a' as int <= w[0] <= 'z' as int
  {
    hide Skip, MdioGrammar.SkipWs;
    SkipCut(b, n);
    var w := MdioGrammar.SkipWs(b);
    assert w[..|s|][0] == w[0];
  }

  lemma FlagCut(b: Bytes, n: nat, depth: nat)
    requires Clean(b) && MdioCodec.ReadFlag(b).Some? && n <= |MdioCodec.ReadFlag(b).value.1|
    ensures var rest := MdioCodec.ReadFlag(b).value.1;
      Value(Cut(b, n), depth) == Some(Cut(rest, n)) && Clean(rest)
  {
    hide Clean, Cut, Skip, MdioCodec.StartsWith, Entries, Str, AfterNumber, Text;
    FlagTexts();
    if MdioCodec.StartsWith(b, Text("true")).Some? {
      WordCut("true", b, n);
    } else {
      WordCut("false", b, n);
      var w := Skip(Cut(b, n));
      assert w[..4][0] == w[0] && w[..5][0] == w[0];
    }
  }

  lemma FlagTexts()
    ensures |Text("true")| == 4 && |Text("false")| == 5 && |Text("null")| == 4
    ensures Text("true")[0] == 't' as int && Text("null")[0] == 'n' as int && Text("false")[0] == 'f' as int
  {
  }

  lemma CloseCut(b: Bytes, close: u8, n: nat)
    requires Clean(b) && MdioGrammar.Next(b, close).End? && n <= |MdioGrammar.Next(b, close).rest|
    ensures var rest := MdioGrammar.Next(b, close).rest;
      Skip(Cut(b, n)) == [close] + Cut(rest, n) && ([close] + Cut(rest, n))[1..] == Cut(rest, n) && Clean(rest)
  {
    hide Skip, MdioGrammar.SkipWs, MdioGrammar.Take, Clean, Cut;
    TakeCut(b, close, n);
  }

  lemma CommaCut(b: Bytes, close: u8, n: nat)
    requires Clean(b) && close != COMMA && MdioGrammar.Next(b, close).More? && n <= |MdioGrammar.Next(b, close).rest|
    ensures var rest := MdioGrammar.Next(b, close).rest;
      && Clean(rest) && Skip(Cut(rest, n)) == Cut(rest, n)
      && var w := Skip(Cut(b, n)); w != [] && w[0] == COMMA && Skip(w[1..]) == Cut(rest, n)
  {
    hide Skip, MdioGrammar.SkipWs, MdioGrammar.Take, Clean, Cut;
    var inner := MdioGrammar.Take(b, COMMA).value;
    TakeCut(b, COMMA, n);
    SkipCut(inner, n);
    SkippedOnce(inner);
    SkipCut(MdioGrammar.SkipWs(inner), n);
  }

  lemma SkippedOnce(b: Bytes)
    ensures MdioGrammar.SkipWs(MdioGrammar.SkipWs(b)) == MdioGrammar.SkipWs(b)
  {
  }

  /** Whatever a list or an object goes on with ends a number. */
  lemma NextEnds(b: Bytes, close: u8)
    requires (close == RBRACE || close == RBRACKET) && !MdioGrammar.Next(b, close).Bad?
    ensures Ends(b)
  {
  }

  // ----- Rules, settings and lists

  lemma {:induction false} WordsAscii(s: string)
    requires forall i :: 0 <= i < |s| ==> 'a' <= s[i] <= 'z' || s[i] == '_'
    ensures Ascii(Text(s))
  {
  }

  lemma FieldAscii(key: Bytes)
    requires MdioGrammar.FieldOf(key).Some?
    ensures Ascii(key)
  {
    hide Text, Ascii;
    WordsAscii("reg");
    WordsAscii("val");
    WordsAscii("mask");
  }

  /** One keyed value, up to what follows it. */
  lemma KeyedCut(b: Bytes, key: Bytes, behind: Bytes, value: Bytes, n: nat)
    requires Clean(b) && n <= |value| && n <= |behind| && n <= |b|
    requires var w := Skip(Cut(b, n)); w != [] && w[0] == QUOTE && Str(w) == Some((key, Cut(behind, n)))
    requires Skip(Cut(behind, n)) == [COLON] + Cut(value, n)
    ensures Keyed(Skip(Cut(b, n)), true) == Some(Cut(value, n))
  {
    hide Skip, Str, Clean, Cut;
    assert ([COLON] + Cut(value, n))[1..] == Cut(value, n);
  }

  lemma {:induction false} FieldsCut(b: Bytes, r: MdioConfig.Rule, seen: set<nat>, last: nat, n: nat, depth: nat)
    requires Clean(b) && MdioGrammar.ReadFields(b, r, seen, last).Some? && n <= |MdioGrammar.ReadFields(b, r, seen, last).value.1|
    ensures var rest := MdioGrammar.ReadFields(b, r, seen, last).value.1;
      && Clean(rest) && Entries(Skip(Cut(b, n)), true, depth) == Some(Cut(rest, n))
      && Skip(Cut(b, n)) != [] && Skip(Cut(b, n))[0] == QUOTE
    decreases |b|
  {
    hide Clean, Cut, Skip, Ascii, Value, Str, Ends, Entries, Keyed, MdioGrammar.ReadString, MdioGrammar.Take, MdioGrammar.FieldOf,
      MdioGrammar.ReadNumber, MdioGrammar.Next, MdioGrammar.FieldSet;
    var (key, b1) := MdioGrammar.ReadString(b, MdioGrammar.FIELD_MAX).value;
    var b2 := MdioGrammar.Take(b1, COLON).value;
    var bit := MdioGrammar.FieldOf(key).value;
    var (v, b3) := MdioGrammar.ReadNumber(b2, MdioGrammar.FieldMax(bit)).value;
    var q := MdioGrammar.Next(b3, RBRACE);
    FieldAscii(key);
    StringCut(b, MdioGrammar.FIELD_MAX, n);
    TakeCut(b1, COLON, n);
    NextEnds(b3, RBRACE);
    NumberCut(b2, MdioGrammar.FieldMax(bit), n, depth + 1);
    KeyedCut(b, key, b1, b2, n);
    EntriesUnfold(Skip(Cut(b, n)), true, depth);
    if q.End? {
      CloseCut(b3, RBRACE, n);
    } else {
      CommaCut(b3, RBRACE, n);
      FieldsCut(q.rest, MdioGrammar.FieldSet(r, bit, v), seen + {bit}, last, n, depth);
    }
  }

  lemma ObjectCut(b: Bytes, r: MdioConfig.Rule, last: nat, n: nat, depth: nat)
    requires depth < DEPTH_MAX && Clean(b) && MdioGrammar.Take(b, LBRACE).Some?
    requires MdioGrammar.ReadFields(MdioGrammar.Take(b, LBRACE).value, r, {}, last).Some?
    requires n <= |MdioGrammar.ReadFields(MdioGrammar.Take(b, LBRACE).value, r, {}, last).value.1|
    ensures var rest := MdioGrammar.ReadFields(MdioGrammar.Take(b, LBRACE).value, r, {}, last).value.1;
      Clean(rest) && Value(Cut(b, n), depth) == Some(Cut(rest, n))
  {
    hide Clean, Cut, Skip, Entries, AfterLiteral, Str, MdioGrammar.Take, MdioGrammar.ReadFields;
    var inner := MdioGrammar.Take(b, LBRACE).value;
    TakeCut(b, LBRACE, n);
    FieldsCut(inner, r, {}, last, n, depth);
  }

  lemma ItemCut(kind: MdioGrammar.Kind, b: Bytes, n: nat, depth: nat)
    requires depth < DEPTH_MAX && Clean(b) && MdioGrammar.ReadItem(kind, b).Some?
    requires var rest := MdioGrammar.ReadItem(kind, b).value.1; n <= |rest| && Ends(rest)
    ensures var rest := MdioGrammar.ReadItem(kind, b).value.1;
      Clean(rest) && Value(Cut(b, n), depth) == Some(Cut(rest, n))
  {
    hide Clean, Cut, Value, Ends, MdioGrammar.Take, MdioGrammar.ReadFields, MdioGrammar.ReadNumber;
    match kind {
      case Rules => ObjectCut(b, MdioConfig.Rule(0, 0, 0xFFFF), MdioGrammar.MASK, n, depth);
      case Settings => ObjectCut(b, MdioConfig.Rule(0, 0, 0), MdioGrammar.VAL, n, depth);
      case _ => NumberCut(b, 31, n, depth);
    }
  }

  lemma {:induction false} ItemsCut(kind: MdioGrammar.Kind, b: Bytes, sofar: seq<MdioGrammar.Item>, n: nat, depth: nat)
    requires depth + 1 < DEPTH_MAX && Clean(b) && MdioGrammar.ReadItems(kind, b, sofar).Some?
    requires n <= |MdioGrammar.ReadItems(kind, b, sofar).value.1|
    ensures var rest := MdioGrammar.ReadItems(kind, b, sofar).value.1;
      Clean(rest) && Entries(Skip(Cut(b, n)), false, depth) == Some(Cut(rest, n))
    decreases |b|
  {
    hide Clean, Cut, Skip, Value, Ends, Entries, MdioGrammar.ReadItem, MdioGrammar.Next;
    var (x, rest) := MdioGrammar.ReadItem(kind, b).value;
    var q := MdioGrammar.Next(rest, RBRACKET);
    NextEnds(rest, RBRACKET);
    ItemCut(kind, b, n, depth + 1);
    SkippedFirst(Cut(b, n), depth + 1);
    EntriesUnfold(Skip(Cut(b, n)), false, depth);
    if q.End? {
      CloseCut(rest, RBRACKET, n);
    } else {
      CommaCut(rest, RBRACKET, n);
      ItemsCut(kind, q.rest, sofar + [x], n, depth);
    }
  }

  lemma SkippedFirst(b: Bytes, depth: nat)
    ensures Value(Skip(b), depth) == Value(b, depth)
  {
    hide Skip, Entries, Str, AfterLiteral;
    SkipNone(Skip(b));
  }

  lemma ListCut(kind: MdioGrammar.Kind, b: Bytes, n: nat, depth: nat)
    requires depth + 1 < DEPTH_MAX && Clean(b) && MdioGrammar.ReadList(kind, b).Some? && n <= |MdioGrammar.ReadList(kind, b).value.1|
    ensures var rest := MdioGrammar.ReadList(kind, b).value.1;
      Clean(rest) && Value(Cut(b, n), depth) == Some(Cut(rest, n))
  {
    hide Clean, Cut, Skip, Entries, AfterLiteral, Str, MdioGrammar.Take, MdioGrammar.ReadItems;
    var inner := MdioGrammar.Take(b, LBRACKET).value;
    TakeCut(b, LBRACKET, n);
    if MdioGrammar.Take(inner, RBRACKET).Some? {
      TakeCut(inner, RBRACKET, n);
    } else {
      ItemsCut(kind, inner, [], n, depth);
      EntriesOpen(Skip(Cut(inner, n)), depth);
    }
  }

  /** An item does not begin with the bracket that closes the list. */
  lemma EntriesOpen(b: Bytes, depth: nat)
    requires Entries(b, false, depth).Some?
    ensures b != [] ==> b[0] != RBRACKET
  {
    hide Skip, Entries;
    EntriesValue(b, depth);
    if b != [] && b[0] == RBRACKET {
      SkipNone(b);
    }
  }

  lemma EntriesValue(b: Bytes, depth: nat)
    requires Entries(b, false, depth).Some?
    ensures Value(b, depth + 1).Some?
  {
    hide Value;
  }

  // ----- Members

  lemma PolicyAscii(policy: MdioConfig.Policy)
    ensures Ascii(MdioCodec.PolicyText(policy))
  {
    hide Text, Ascii;
    MdioCodec.PolicyNames(policy);
    WordsAscii(MdioCodec.PolicyName(policy));
  }

  lemma NameAscii(name: Bytes)
    requires MdioConfig.SafeName(name)
    ensures Ascii(name)
  {
  }

  lemma TextCut(b: Bytes, cap: nat, n: nat, depth: nat)
    requires Clean(b) && cap > 0 && MdioGrammar.ReadString(b, cap).Some?
    requires var (s, rest) := MdioGrammar.ReadString(b, cap).value; Ascii(s) && n <= |rest|
    ensures var rest := MdioGrammar.ReadString(b, cap).value.1;
      Clean(rest) && Value(Cut(b, n), depth) == Some(Cut(rest, n))
  {
    hide Clean, Cut, Skip, Ascii, Str, Entries, AfterLiteral, MdioGrammar.ReadString;
    StringCut(b, cap, n);
  }

  lemma MemberCut(k: nat, b: Bytes, c: MdioConfig.Config, seen: set<nat>, n: nat)
    requires Clean(b) && MdioCodec.ReadValue(k, b, c, seen).Some?
    requires var (d, rest) := MdioCodec.ReadValue(k, b, c, seen).value;
      n <= |rest| && Ends(rest) && (k == MdioCodec.NAME ==> MdioConfig.SafeName(d.name))
    ensures var rest := MdioCodec.ReadValue(k, b, c, seen).value.1;
      Clean(rest) && Value(Cut(b, n), 1) == Some(Cut(rest, n))
  {
    hide Clean, Cut, Value, Ends, Ascii, MdioGrammar.ReadString, MdioGrammar.ReadList, MdioGrammar.ReadNumber, MdioCodec.ReadFlag,
      MdioCodec.PolicyText, MdioConfig.SafeName;
    if k == MdioCodec.NAME {
      NameAscii(MdioGrammar.ReadString(b, MdioConfig.NAME_MAX).value.0);
      TextCut(b, MdioConfig.NAME_MAX, n, 1);
    } else if k == MdioCodec.POLICY {
      PolicyAscii(MdioConfig.Whitelist);
      PolicyAscii(MdioConfig.Blacklist);
      TextCut(b, MdioGrammar.KEY_MAX, n, 1);
    } else if k == MdioCodec.AUTOPOLL {
      FlagCut(b, n, 1);
    } else if k == MdioCodec.AUTOPOLL_REGS {
      ListCut(MdioGrammar.Registers, b, n, 1);
    } else if k == MdioCodec.WHITELIST || k == MdioCodec.BLACKLIST {
      ListCut(MdioGrammar.Rules, b, n, 1);
    } else if k == MdioCodec.ALLOW_REGS || k == MdioCodec.DENY_REGS {
      ListCut(MdioGrammar.LegacyRules, b, n, 1);
    } else if k == MdioCodec.SETTINGS {
      ListCut(MdioGrammar.Settings, b, n, 1);
    } else {
      NumberCut(b, MdioCodec.NumberMax(k), n, 1);
    }
  }

  /** A name once read is not changed by the members behind it. */
  lemma {:induction false} NameKept(b: Bytes, c: MdioConfig.Config, seen: set<nat>)
    requires MdioCodec.NAME in seen && MdioCodec.ReadMembers(b, c, seen).Some?
    ensures MdioCodec.ReadMembers(b, c, seen).value.0.name == c.name
    decreases |b|
  {
    hide MdioGrammar.ReadString, MdioGrammar.Take, MdioCodec.KeyFrom, MdioCodec.ReadValue, MdioGrammar.Next;
    var (key, b1) := MdioGrammar.ReadString(b, MdioGrammar.KEY_MAX).value;
    var b2 := MdioGrammar.Take(b1, COLON).value;
    var k := MdioCodec.KeyFrom(key, 0).value;
    var (d, b3) := MdioCodec.ReadValue(k, b2, c, seen + {k}).value;
    var q := MdioGrammar.Next(b3, RBRACE);
    OtherValue(k, b2, c, seen + {k});
    if q.More? {
      NameKept(q.rest, d, seen + {k});
    }
  }

  lemma OtherValue(k: nat, b: Bytes, c: MdioConfig.Config, seen: set<nat>)
    requires k != MdioCodec.NAME && MdioCodec.ReadValue(k, b, c, seen).Some?
    ensures MdioCodec.ReadValue(k, b, c, seen).value.0.name == c.name
  {
    hide MdioGrammar.ReadString, MdioGrammar.ReadList, MdioGrammar.ReadNumber, MdioCodec.ReadFlag, MdioCodec.ReadPolicy;
  }

  lemma {:induction false} KeyFound(key: Bytes, i: nat)
    requires i <= MdioCodec.KEYS && MdioCodec.KeyFrom(key, i).Some?
    ensures key == MdioCodec.KeyText(MdioCodec.KeyFrom(key, i).value)
    decreases MdioCodec.KEYS - i
  {
    hide MdioCodec.KeyText;
    if key != MdioCodec.KeyText(i) {
      KeyFound(key, i + 1);
    }
  }

  lemma KeyAscii(key: Bytes)
    requires MdioCodec.KeyFrom(key, 0).Some?
    ensures Ascii(key) && key != Schema() && !ModernKey(key)
  {
    hide Text, Ascii, MdioCodec.KeyName, ModernKey, Schema;
    var k := MdioCodec.KeyFrom(key, 0).value;
    KeyFound(key, 0);
    MdioCodec.KeyShape(k);
    WordsAscii(MdioCodec.KeyName(k));
    MdioFile.KeyIsOlder(k);
  }

  /** A member as the gate meets it. */
  lemma MetCut(b: Bytes, key: Bytes, behind: Bytes, value: Bytes, rest: Bytes)
    requires b != [] && b[0] == QUOTE && Str(b) == Some((key, behind)) && |key| < KEY_MAX
    requires Skip(behind) == [COLON] + value && Value(value, 1) == Some(rest)
    ensures Met(b).Some? && Met(b).value.0 == key && Met(b).value.2 == rest
  {
    hide Skip, Value, Str;
    assert ([COLON] + value)[1..] == value;
    SkippedFirst(value, 1);
  }

  lemma {:induction false} MembersCut(b: Bytes, c: MdioConfig.Config, seen: set<nat>, n: nat)
    requires Clean(b) && MdioCodec.ReadMembers(b, c, seen).Some?
    requires var (d, _, rest) := MdioCodec.ReadMembers(b, c, seen).value; MdioConfig.SafeName(d.name) && n <= |rest|
    ensures var rest := MdioCodec.ReadMembers(b, c, seen).value.2;
      && Clean(rest) && Entries(Skip(Cut(b, n)), true, 0) == Some(Cut(rest, n))
      && Skip(Cut(b, n)) != [] && Skip(Cut(b, n))[0] == QUOTE
      && ProbeFrom(Skip(Cut(b, n)), None, false) == Good(LEGACY)
    decreases |b|
  {
    hide Clean, Cut, Skip, Ascii, Value, Str, Ends, Entries, Keyed, Met, ProbeFrom, ModernKey, Schema, MdioGrammar.ReadString, MdioGrammar.Take,
      MdioCodec.KeyFrom, MdioCodec.ReadValue, MdioGrammar.Next, MdioConfig.SafeName;
    var (key, b1) := MdioGrammar.ReadString(b, MdioGrammar.KEY_MAX).value;
    var b2 := MdioGrammar.Take(b1, COLON).value;
    var k := MdioCodec.KeyFrom(key, 0).value;
    var (d, b3) := MdioCodec.ReadValue(k, b2, c, seen + {k}).value;
    var q := MdioGrammar.Next(b3, RBRACE);
    if k == MdioCodec.NAME && q.More? {
      NameKept(q.rest, d, seen + {k});
    }
    KeyAscii(key);
    StringCut(b, MdioGrammar.KEY_MAX, n);
    TakeCut(b1, COLON, n);
    NextEnds(b3, RBRACE);
    MemberCut(k, b2, c, seen + {k}, n);
    KeyedCut(b, key, b1, b2, n);
    EntriesUnfold(Skip(Cut(b, n)), true, 0);
    MetCut(Skip(Cut(b, n)), key, Cut(b1, n), Cut(b2, n), Cut(b3, n));
    ProbeOn(Skip(Cut(b, n)), None, false);
    if q.End? {
      CloseCut(b3, RBRACE, n);
      ProbeStops([RBRACE] + Cut(q.rest, n), None, false);
    } else {
      CommaCut(b3, RBRACE, n);
      MembersCut(q.rest, d, seen + {k}, n);
    }
  }

  // ----- Files

  /** A configuration the older reader accepts, in a text without odd blanks and not too long, passes the gate as older. */
  lemma AcceptedIsOlder(json: Bytes)
    requires MdioCodec.ParseConfig(json).Some? && Clean(json) && |json| <= JSON_MAX
    ensures Probe(json) == Good(LEGACY)
  {
    hide Clean, Cut, Skip, Value, Entries, ProbeFrom, MdioGrammar.Take, MdioGrammar.SkipWs, MdioCodec.ReadMembers, MdioConfig.Validate,
      MdioConfig.SafeName;
    var inner := MdioGrammar.Take(json, LBRACE).value;
    var (c, seen, rest) := MdioCodec.ReadMembers(inner, MdioCodec.START, {}).value;
    ValidName(c);
    TakeCut(json, LBRACE, 0);
    Uncut(json);
    Uncut(inner);
    MembersCut(inner, MdioCodec.START, {}, 0);
    Uncut(rest);
    SkipCut(rest, 0);
    Uncut([]);
    var start := Skip(json);
    SkipNone(start);
    ValueUnfolds(start, 0);
    assert Value(start, 0) == Some(rest);
    assert Document(json) == Good(Ahead(start, rest));
    MembersCut(inner, MdioCodec.START, {}, |rest|);
    RootCut(inner, rest);
  }

  lemma ValidName(c: MdioConfig.Config)
    requires MdioConfig.Validate(c) == Ok
    ensures MdioConfig.SafeName(c.name)
  {
    hide MdioConfig.SafeName;
  }

  lemma Uncut(b: Bytes)
    ensures Cut(b, 0) == b
  {
  }

  lemma RootCut(inner: Bytes, rest: Bytes)
    requires |rest| <= |inner|
    ensures Ahead([LBRACE] + inner, rest)[1..] == Cut(inner, |rest|)
  {
  }

  /** The gate refuses a text that holds an odd blank anywhere or is too long. */
  lemma OddRefused(json: Bytes)
    requires !Clean(json) || |json| > JSON_MAX
    ensures Probe(json) == Fail(Malformed)
  {
    hide Document, Clean;
    if Document(json).Good? {
      DocumentClean(json);
    }
    DocumentFails(json);
  }

  lemma DocumentFails(json: Bytes)
    ensures Document(json).Good? || Document(json) == Fail(Malformed)
  {
    hide Skip, Value;
  }

  /** Exactly when a configuration the older reader takes is accepted as a file. */
  lemma AcceptanceCarriesOver(json: Bytes, c: MdioConfig.Config)
    requires MdioCodec.ParseConfig(json) == Some(c)
    ensures MdioFile.ParseFile(json) == if |json| <= JSON_MAX && Clean(json) then Good(MdioFile.FromLegacy(c)) else Fail(Malformed)
  {
    hide MdioCodec.ParseConfig, Clean, Probe, ParseProfile;
    if |json| <= JSON_MAX && Clean(json) {
      AcceptedIsOlder(json);
    } else {
      OddRefused(json);
    }
  }

  /** The files of the older format, by the older reader alone. */
  lemma OlderFiles(json: Bytes, c: MdioConfig.Config)
    ensures MdioFile.ParseFile(json) == Good(MdioFile.FromLegacy(c)) <==>
            MdioCodec.ParseConfig(json) == Some(c) && |json| <= JSON_MAX && Clean(json)
  {
    hide MdioCodec.ParseConfig, Clean, Probe, ParseProfile, MdioFile.ParseFile;
    if MdioCodec.ParseConfig(json) == Some(c) {
      AcceptanceCarriesOver(json, c);
    }
    if MdioFile.ParseFile(json) == Good(MdioFile.FromLegacy(c)) {
      MdioFile.FileFrom(json, MdioFile.FromLegacy(c));
      if ParseProfile(json, true).Good? {
        NewerVersion(json);
      }
      SameBus(c);
    }
  }

  lemma NewerVersion(json: Bytes)
    requires ParseProfile(json, true).Good?
    ensures ParseProfile(json, true).value.meta.version == MODERN
  {
    hide ParseProfile;
    ProfileRoundTrip.ParsedIsSound(json, true);
  }

  lemma SameBus(c: MdioConfig.Config)
    ensures forall d :: MdioFile.FromLegacy(d) == MdioFile.FromLegacy(c) ==> d == c
    ensures MdioFile.FromLegacy(c).meta.version == LEGACY
  {
  }

  // ----- Three texts the older reader takes and the gate refuses

  /** White space to C ahead of a text does not matter to the older reader. */
  lemma {:induction false} SpaceAhead(spaces: Bytes, b: Bytes)
    requires forall i :: 0 <= i < |spaces| ==> MdioGrammar.Space(spaces[i])
    ensures MdioGrammar.SkipWs(spaces + b) == MdioGrammar.SkipWs(b)
  {
    if spaces == [] {
      assert spaces + b == b;
    } else {
      assert (spaces + b)[1..] == spaces[1..] + b;
      SpaceAhead(spaces[1..], b);
    }
  }

  /** A printed configuration with white space ahead of it. */
  lemma PrintedBehind(spaces: Bytes, c: MdioConfig.Config)
    requires MdioConfig.Valid(c) && (forall i :: 0 <= i < |spaces| ==> MdioGrammar.Space(spaces[i])) && !(Clean(spaces) && |spaces| <= JSON_MAX)
    ensures MdioCodec.ParseConfig(spaces + MdioCodec.FormatConfig(c)) == Some(c)
    ensures MdioFile.ParseFile(spaces + MdioCodec.FormatConfig(c)) == Fail(Malformed)
  {
    hide MdioConfig.Valid, MdioCodec.FormatConfig, MdioCodec.ReadMembers, MdioFile.ParseFile, MdioConfig.Validate, MdioGrammar.SkipWs;
    var b := MdioCodec.FormatConfig(c);
    MdioCodec.ParseUndoesFormat(c);
    SpaceAhead(spaces, b);
    assert MdioGrammar.Take(spaces + b, LBRACE) == MdioGrammar.Take(b, LBRACE);
    AcceptanceCarriesOver(spaces + b, c);
  }

  lemma TabRefused(c: MdioConfig.Config)
    requires MdioConfig.Valid(c)
    ensures MdioCodec.ParseConfig([VERTICAL_TAB] + MdioCodec.FormatConfig(c)) == Some(c)
    ensures MdioFile.ParseFile([VERTICAL_TAB] + MdioCodec.FormatConfig(c)) == Fail(Malformed)
  {
    hide MdioConfig.Valid, MdioCodec.FormatConfig, MdioCodec.ParseConfig, MdioFile.ParseFile;
    PrintedBehind([VERTICAL_TAB], c);
  }

  lemma FeedRefused(c: MdioConfig.Config)
    requires MdioConfig.Valid(c)
    ensures MdioCodec.ParseConfig([FORM_FEED] + MdioCodec.FormatConfig(c)) == Some(c)
    ensures MdioFile.ParseFile([FORM_FEED] + MdioCodec.FormatConfig(c)) == Fail(Malformed)
  {
    hide MdioConfig.Valid, MdioCodec.FormatConfig, MdioCodec.ParseConfig, MdioFile.ParseFile;
    PrintedBehind([FORM_FEED], c);
  }

  function Blanks(n: nat): (b: Bytes)
    ensures |b| == n && forall i :: 0 <= i < n ==> b[i] == BLANK
  {
    seq(n, _ => BLANK)
  }

  lemma LengthRefused(c: MdioConfig.Config)
    requires MdioConfig.Valid(c)
    ensures MdioCodec.ParseConfig(Blanks(JSON_MAX + 1) + MdioCodec.FormatConfig(c)) == Some(c)
    ensures MdioFile.ParseFile(Blanks(JSON_MAX + 1) + MdioCodec.FormatConfig(c)) == Fail(Malformed)
  {
    hide MdioConfig.Valid, MdioCodec.FormatConfig, MdioCodec.ParseConfig, MdioFile.ParseFile, Blanks;
    PrintedBehind(Blanks(JSON_MAX + 1), c);
  }
}
