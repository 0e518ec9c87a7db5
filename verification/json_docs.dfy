/**
 Documents printed with a given layout, and the proof that the scanner takes back what is printed: strings,
 whole values, the members of objects and the items of arrays.
 */
module JsonDocs {
  import opened Words
  import opened Utf8
  import opened Tokens
  import opened JsonText

  /** A value as it is printed; a group has blanks behind its bracket, between its entries and ahead of its end. */
  datatype Doc =
    | Word(text: Bytes)
    | Number(n: nat)
    | Flag(yes: bool)
    | Group(braced: bool, es: seq<Entry>, lead: Bytes, sep: Bytes, tail: Bytes)

  /** One member of an object; the items of an array have no use for the key. */
  datatype Entry = Entry(key: Bytes, value: Doc)

  function QuotedChars(s: Bytes): Bytes {
    if s == [] then [] else (if s[0] == QUOTE || s[0] == ESCAPE then [ESCAPE, s[0]] else [s[0]]) + QuotedChars(s[1..])
  }

  function Quoted(s: Bytes): Bytes { [QUOTE] + (QuotedChars(s) + [QUOTE]) }

  function Show(d: Doc): Bytes
    decreases d
  {
    match d
    case Word(s) => Quoted(s)
    case Number(n) => Decimal(n)
    case Flag(yes) => if yes then Text("true") else Text("false")
    case Group(braced, es, lead, sep, tail) =>
      [Open(braced)] + if es == [] then [Close(braced)] else lead + (ShowEntry(braced, es[0]) + ShowRest(braced, es[1..], sep, tail))
  }

  function ShowKey(braced: bool, key: Bytes): Bytes { if braced then Quoted(key) + [COLON, BLANK] else [] }

  function ShowEntry(braced: bool, e: Entry): Bytes
    decreases e
  {
    ShowKey(braced, e.key) + Show(e.value)
  }

  /** What stands behind an entry: the other entries and the end of the group. */
  function ShowRest(braced: bool, es: seq<Entry>, sep: Bytes, tail: Bytes): Bytes
    decreases es
  {
    if es == [] then tail + [Close(braced)]
    else [COMMA] + (sep + (ShowEntry(braced, es[0]) + ShowRest(braced, es[1..], sep, tail)))
  }

  predicate AllBlank(b: Bytes) { forall i :: 0 <= i < |b| ==> Blank(b[i]) }

  /** Text that can be printed: well-formed, without control characters. */
  predicate Printed(s: Bytes) { Utf8Valid(s) && forall i :: 0 <= i < |s| ==> s[i] >= 32 }

  predicate Neat(d: Doc)
    decreases d
  {
    match d
    case Word(s) => Printed(s)
    case Number(_) => true
    case Flag(_) => true
    case Group(_, es, lead, sep, tail) => AllBlank(lead) && AllBlank(sep) && AllBlank(tail) && NeatAll(es)
  }

  predicate NeatAll(es: seq<Entry>)
    decreases es
  {
    es == [] || (Printed(es[0].key) && Neat(es[0].value) && NeatAll(es[1..]))
  }

  /** How deep groups are nested. */
  function Height(d: Doc): nat
    decreases d
  {
    match d
    case Group(_, es, _, _, _) => 1 + HeightAll(es)
    case _ => 0
  }

  function HeightAll(es: seq<Entry>): nat
    decreases es
  {
    if es == [] then 0
    else
      var first, others := Height(es[0].value), HeightAll(es[1..]);
      if first > others then first else others
  }

  // ----- Strings taken back

  lemma QuotedCharsApart(a: Bytes, b: Bytes)
    requires forall i :: 0 <= i < |a| ==> a[i] >= 0x80
    ensures QuotedChars(a + b) == a + QuotedChars(b)
  {
    if a == [] {
      assert a + b == b;
    } else {
      assert (a + b)[1..] == a[1..] + b;
      QuotedCharsApart(a[1..], b);
    }
  }

  /** The first character is decided by its own octets. */
  lemma Utf8Prefix(s: Bytes, x: Bytes)
    requires Utf8Length(s) > 0
    ensures var n := Utf8Length(s);
      Utf8Length(s[..n] + x) == n && (s[0] >= 0x80 ==> n > 1 && forall i :: 0 <= i < n ==> s[i] >= 0x80)
  {
  }

  lemma CharsStep(b: Bytes)
    requires b != [] && b[0] != QUOTE && Char(b).Some?
    ensures var (octets, rest) := Char(b).value;
      Chars(b) == match Chars(rest) case None => None case Some((s, after)) => Some((octets + s, after))
  {
  }

  lemma CharsEnd(rest: Bytes)
    ensures Chars([QUOTE] + rest) == Some(([], rest))
  {
    assert ([QUOTE] + rest)[1..] == rest;
  }

  /** One character, printed and taken back. */
  lemma CharOf(s: Bytes, more: Bytes)
    requires s != [] && Utf8Length(s) > 0 && s[0] >= 32
    ensures var n := Utf8Length(s);
      QuotedChars(s) == QuotedChars(s[..n]) + QuotedChars(s[n..])
      && QuotedChars(s[..n]) != [] && QuotedChars(s[..n])[0] != QUOTE
      && Char(QuotedChars(s[..n]) + more) == Some((s[..n], more))
  {
    hide Utf8Length;
    var n := Utf8Length(s);
    Utf8Prefix(s, more);
    assert s == s[..n] + s[n..];
    if s[0] >= 0x80 {
      QuotedCharsApart(s[..n], s[n..]);
      QuotedCharsApart(s[..n], []);
      assert s[..n] + [] == s[..n];
      var b := s[..n] + more;
      assert b[..n] == s[..n] && b[n..] == more;
    } else {
      AsciiIs(s);
      assert s[..1] == [s[0]];
      assert QuotedChars([s[0]]) == if s[0] == QUOTE || s[0] == ESCAPE then [ESCAPE, s[0]] else [s[0]];
      var b := QuotedChars(s[..n]) + more;
      AsciiIs(b);
      if s[0] == QUOTE || s[0] == ESCAPE {
        assert b[1..] == [s[0]] + more && b[1..][1..] == more;
      } else {
        assert b[..1] == s[..1] && b[1..] == more;
      }
    }
  }

  lemma {:induction false} CharsOf(s: Bytes, rest: Bytes)
    requires Printed(s)
    ensures Chars(QuotedChars(s) + ([QUOTE] + rest)) == Some((s, rest))
    decreases |s|
  {
    hide Chars, Char, QuotedChars;
    var end := [QUOTE] + rest;
    if s == [] {
      NoChars();
      assert QuotedChars(s) + end == end;
      CharsEnd(rest);
    } else {
      var n := Utf8Length(s);
      var more := QuotedChars(s[n..]) + end;
      CharOf(s, more);
      assert Utf8Valid(s[n..]);
      assert QuotedChars(s) + end == QuotedChars(s[..n]) + more;
      CharsOf(s[n..], rest);
      CharsStep(QuotedChars(s[..n]) + more);
      assert s[..n] + s[n..] == s;
    }
  }

  lemma NoChars()
    ensures QuotedChars([]) == []
  {
  }

  lemma StrOf(s: Bytes, rest: Bytes)
    requires Printed(s)
    ensures Str(Quoted(s) + rest) == Some((s, rest))
  {
    hide Chars, QuotedChars;
    CharsOf(s, rest);
    var b := Quoted(s) + rest;
    assert b[1..] == QuotedChars(s) + ([QUOTE] + rest);
  }

  // ----- Values taken back

  /** What may follow a number without becoming part of it. */
  predicate Ends(rest: Bytes) { rest == [] || !(Digit(rest[0]) || rest[0] == POINT || Exponent(rest[0])) }

  lemma {:induction false} SkipBlanks(blanks: Bytes, rest: Bytes)
    requires AllBlank(blanks)
    ensures Skip(blanks + rest) == Skip(rest)
  {
    if blanks == [] {
      assert blanks + rest == rest;
    } else {
      assert (blanks + rest)[1..] == blanks[1..] + rest;
      SkipBlanks(blanks[1..], rest);
    }
  }

  lemma SkipNone(b: Bytes)
    requires b == [] || !Blank(b[0])
    ensures Skip(b) == b
  {
  }

  lemma {:induction false} DigitRunOver(a: Bytes, rest: Bytes)
    requires (forall i :: 0 <= i < |a| ==> Digit(a[i])) && Ends(rest)
    ensures DigitRun(a + rest) == rest
  {
    if a == [] {
      assert a + rest == rest;
    } else {
      assert (a + rest)[1..] == a[1..] + rest;
      DigitRunOver(a[1..], rest);
    }
  }

  lemma {:induction false} LeadingZero(n: nat)
    ensures Decimal(n)[0] == ZERO ==> n == 0 && |Decimal(n)| == 1
  {
    if n >= 10 {
      LeadingZero(n / 10);
      assert Decimal(n / 10)[0] == Decimal(n)[0];
    }
  }

  lemma DigitFirst(b: Bytes)
    requires b != [] && Digit(b[0])
    ensures AfterLiteral(b) == AfterNumber(b)
  {
    hide AfterNumber, Text;
    assert Text("true")[0] == 't' as int && Text("null")[0] == 'n' as int && Text("false")[0] == 'f' as int;
    if |b| >= 4 { assert b[..4][0] == b[0]; }
    if |b| >= 5 { assert b[..5][0] == b[0]; }
  }

  lemma NumberOf(n: nat, rest: Bytes)
    requires Ends(rest)
    ensures AfterLiteral(Decimal(n) + rest) == Some(rest)
  {
    hide Decimal, DigitRun, AfterLiteral;
    var b, digits := Decimal(n) + rest, Decimal(n);
    assert Digit(b[0]) && b[0] == digits[0];
    DigitFirst(b);
    assert b[1..] == digits[1..] + rest;
    LeadingZero(n);
    DigitRunOver(digits[1..], rest);
    if digits[0] == ZERO {
      assert digits[1..] + rest == rest;
    }
  }

  lemma FlagOf(yes: bool, rest: Bytes)
    ensures AfterLiteral(Show(Flag(yes)) + rest) == Some(rest)
  {
    hide AfterNumber;
    var t := Show(Flag(yes));
    var b := t + rest;
    if yes {
      assert b[..4] == Text("true") && b[4..] == rest;
    } else {
      assert b[..5] == Text("false") && b[5..] == rest;
      assert b[..4][0] != Text("true")[0] && b[..4][0] != Text("null")[0];
    }
  }

  /** No printed value starts with a blank or with the end of a group. */
  lemma ShowStarts(d: Doc)
    ensures Show(d) != [] && !Blank(Show(d)[0]) && Show(d)[0] != RBRACE && Show(d)[0] != RBRACKET
    ensures d.Word? <==> Show(d)[0] == QUOTE
    ensures d.Group? ==> Show(d)[0] == Open(d.braced)
    ensures !d.Group? ==> Show(d)[0] != LBRACE && Show(d)[0] != LBRACKET
  {
    hide Decimal;
    if d.Number? { assert Digit(Decimal(d.n)[0]); }
  }

  lemma EntryStarts(braced: bool, e: Entry)
    ensures ShowEntry(braced, e) != [] && !Blank(ShowEntry(braced, e)[0])
    ensures ShowEntry(braced, e)[0] != RBRACE && ShowEntry(braced, e)[0] != RBRACKET
  {
    hide Show, QuotedChars;
    ShowStarts(e.value);
    if braced {
      assert ShowEntry(braced, e)[0] == QUOTE;
    }
  }

  lemma ValueUnfolds(b: Bytes, depth: nat)
    requires b != [] && !Blank(b[0])
    ensures Value(b, depth) ==
            if b[0] == QUOTE then (match Str(b) case None => None case Some((_, rest)) => Some(rest))
            else if b[0] == LBRACE || b[0] == LBRACKET then
              if depth >= DEPTH_MAX then None
              else
                var braced, u := b[0] == LBRACE, Skip(b[1..]);
                if u != [] && u[0] == Close(braced) then Some(u[1..]) else Entries(u, braced, depth)
            else AfterLiteral(b)
  {
    hide Entries, AfterLiteral, Str;
    SkipNone(b);
  }

  lemma EntriesUnfold(b: Bytes, braced: bool, depth: nat)
    requires Keyed(b, braced).Some? && Value(Keyed(b, braced).value, depth + 1).Some?
    ensures var w := Skip(Value(Keyed(b, braced).value, depth + 1).value);
      Entries(b, braced, depth) ==
      if w == [] then None
      else if w[0] == Close(braced) then Some(w[1..])
      else if w[0] == COMMA then Entries(Skip(w[1..]), braced, depth)
      else None
  {
    hide Keyed, Value;
  }

  /** Blanks ahead of a value do not matter. */
  lemma ValueSkips(blanks: Bytes, b: Bytes, depth: nat)
    requires AllBlank(blanks)
    ensures Value(blanks + b, depth) == Value(b, depth)
  {
    hide Entries, AfterLiteral, Str, Skip;
    SkipBlanks(blanks, b);
  }

  lemma KeyedOf(braced: bool, e: Entry, more: Bytes)
    requires Printed(e.key)
    ensures Keyed(ShowEntry(braced, e) + more, braced) ==
            Some(if braced then [BLANK] + (Show(e.value) + more) else Show(e.value) + more)
  {
    hide Show, Str, Skip, Quoted;
    var body := Show(e.value) + more;
    if braced {
      var behind := [COLON] + ([BLANK] + body);
      assert ShowEntry(braced, e) + more == Quoted(e.key) + behind;
      StrOf(e.key, behind);
      SkipNone(behind);
      assert behind[1..] == [BLANK] + body;
    } else {
      assert ShowEntry(braced, e) + more == body;
    }
  }

  lemma RestEnds(braced: bool, es: seq<Entry>, sep: Bytes, tail: Bytes, more: Bytes)
    requires AllBlank(tail)
    ensures Ends(ShowRest(braced, es, sep, tail) + more)
  {
    hide ShowEntry;
    var r := ShowRest(braced, es, sep, tail);
    assert r != [] && (r + more)[0] == r[0];
    if es == [] {
      if tail == [] { assert r[0] == Close(braced); } else { assert r[0] == tail[0]; }
    } else {
      assert r[0] == COMMA;
    }
  }

  /** Skipping to what follows an entry: the end of the group, or a comma. */
  lemma SkipRest(braced: bool, es: seq<Entry>, sep: Bytes, tail: Bytes, more: Bytes)
    requires AllBlank(tail) && AllBlank(sep)
    ensures es == [] ==> Skip(ShowRest(braced, es, sep, tail) + more) == [Close(braced)] + more
    ensures es != [] ==>
              var next := ShowEntry(braced, es[0]) + (ShowRest(braced, es[1..], sep, tail) + more);
              && Skip(ShowRest(braced, es, sep, tail) + more) == [COMMA] + (sep + next)
              && Skip(sep + next) == next
  {
    if es == [] {
      hide Skip;
      assert ShowRest(braced, es, sep, tail) + more == tail + ([Close(braced)] + more);
      SkipBlanks(tail, [Close(braced)] + more);
      SkipNone([Close(braced)] + more);
    } else {
      hide Skip, ShowEntry;
      var next := ShowEntry(braced, es[0]) + (ShowRest(braced, es[1..], sep, tail) + more);
      assert ShowRest(braced, es, sep, tail) + more == [COMMA] + (sep + next);
      SkipNone([COMMA] + (sep + next));
      EntryStarts(braced, es[0]);
      SkipBlanks(sep, next);
      SkipNone(next);
    }
  }

  /** A printed value is stepped over exactly. */
  lemma {:induction false} ValueOf(d: Doc, depth: nat, rest: Bytes)
    requires Neat(d) && depth + Height(d) <= DEPTH_MAX && Ends(rest)
    ensures Value(Show(d) + rest, depth) == Some(rest)
    decreases d
  {
    hide Value, Str, Entries, AfterLiteral, Skip, QuotedChars, Decimal;
    var b := Show(d) + rest;
    ShowStarts(d);
    ValueUnfolds(b, depth);
    match d
    case Word(s) => StrOf(s, rest);
    case Number(n) => NumberOf(n, rest);
    case Flag(yes) => FlagOf(yes, rest);
    case Group(braced, es, lead, sep, tail) =>
      if es == [] {
        assert b[1..] == [Close(braced)] + rest;
        SkipNone(b[1..]);
        assert ([Close(braced)] + rest)[1..] == rest;
      } else {
        var inner := ShowEntry(braced, es[0]) + (ShowRest(braced, es[1..], sep, tail) + rest);
        GroupInner(d, rest);
        EntriesOf(braced, es, sep, tail, depth, rest);
      }
  }

  /** Behind the bracket of a group that is not empty. */
  lemma GroupInner(d: Doc, rest: Bytes)
    requires d.Group? && d.es != [] && AllBlank(d.lead)
    ensures var inner := ShowEntry(d.braced, d.es[0]) + (ShowRest(d.braced, d.es[1..], d.sep, d.tail) + rest);
      Show(d) + rest == [Open(d.braced)] + (d.lead + inner) && (Show(d) + rest)[1..] == d.lead + inner && Skip(d.lead + inner) == inner
      && inner != [] && inner[0] != RBRACE && inner[0] != RBRACKET
  {
    hide Skip, ShowEntry, ShowRest;
    var inner := ShowEntry(d.braced, d.es[0]) + (ShowRest(d.braced, d.es[1..], d.sep, d.tail) + rest);
    assert Show(d) + rest == [Open(d.braced)] + (d.lead + inner);
    EntryStarts(d.braced, d.es[0]);
    SkipBlanks(d.lead, inner);
    SkipNone(inner);
  }

  lemma {:induction false} EntriesOf(braced: bool, es: seq<Entry>, sep: Bytes, tail: Bytes, depth: nat, rest: Bytes)
    requires es != [] && NeatAll(es) && AllBlank(sep) && AllBlank(tail) && depth + 1 + HeightAll(es) <= DEPTH_MAX
    ensures Entries(ShowEntry(braced, es[0]) + (ShowRest(braced, es[1..], sep, tail) + rest), braced, depth) == Some(rest)
    decreases es
  {
    hide Value, Entries, Skip, Show, ShowEntry, ShowRest, Keyed;
    var e, others := es[0], es[1..];
    var more := ShowRest(braced, others, sep, tail) + rest;
    KeyedOf(braced, e, more);
    RestEnds(braced, others, sep, tail, rest);
    ValueOf(e.value, depth + 1, more);
    assert AllBlank([BLANK]);
    ValueSkips([BLANK], Show(e.value) + more, depth + 1);
    EntriesUnfold(ShowEntry(braced, e) + more, braced, depth);
    SkipRest(braced, others, sep, tail, rest);
    if others == [] {
      assert ([Close(braced)] + rest)[1..] == rest;
    } else {
      var next := ShowEntry(braced, others[0]) + (ShowRest(braced, others[1..], sep, tail) + rest);
      assert ([COMMA] + (sep + next))[1..] == sep + next;
      EntriesOf(braced, others, sep, tail, depth, rest);
    }
  }

  // ----- Members and items taken back

  /** The printed values of the entries, each under its own key, none of which was there before. */
  predicate Fresh(got: Views, keys: seq<Bytes>, es: seq<Entry>)
    requires |got| == |keys|
    decreases es
  {
    es == [] ||
    (var i := IndexOf(keys, es[0].key);
     i < |keys| && got[i] == None && |es[0].key| < KEY_MAX && Fresh(got[i := Some(Show(es[0].value))], keys, es[1..]))
  }

  function Filled(got: Views, keys: seq<Bytes>, es: seq<Entry>): (v: Views)
    requires |got| == |keys| && Fresh(got, keys, es)
    ensures |v| == |keys|
    decreases es
  {
    if es == [] then got else Filled(got[IndexOf(keys, es[0].key) := Some(Show(es[0].value))], keys, es[1..])
  }

  lemma AheadOf(front: Bytes, rest: Bytes)
    ensures Ahead(front + rest, rest) == front
  {
  }

  lemma {:induction false} FieldsFromOf(keys: seq<Bytes>, got: Views, es: seq<Entry>, sep: Bytes, tail: Bytes)
    requires es != [] && NeatAll(es) && AllBlank(sep) && AllBlank(tail) && 1 + HeightAll(es) <= DEPTH_MAX
    requires |got| == |keys| && Fresh(got, keys, es)
    ensures FieldsFrom(ShowEntry(true, es[0]) + ShowRest(true, es[1..], sep, tail), keys, got) == Some(Filled(got, keys, es))
    decreases es
  {
    hide Value, Skip, Show, ShowEntry, ShowRest, Str, Quoted, AllBlank;
    var e, others := es[0], es[1..];
    var more := ShowRest(true, others, sep, tail);
    var b, i := ShowEntry(true, e) + more, IndexOf(keys, e.key);
    KeyOf(e, more);
    ShowStarts(e.value);
    RestEnds(true, others, sep, tail, []);
    SkipRest(true, others, sep, tail, []);
    assert more + [] == more;
    ValueOf(e.value, 1, more);
    AheadOf(Show(e.value), more);
    var next := got[i := Some(Show(e.value))];
    if others == [] {
      assert [Close(true)] + [] == [RBRACE];
    } else {
      var following := ShowEntry(true, others[0]) + ShowRest(true, others[1..], sep, tail);
      assert ShowRest(true, others[1..], sep, tail) + [] == ShowRest(true, others[1..], sep, tail);
      assert ([COMMA] + (sep + following))[1..] == sep + following;
      FieldsFromOf(keys, next, others, sep, tail);
    }
  }

  /** The key of a member, and where its value starts. */
  lemma KeyOf(e: Entry, more: Bytes)
    requires Printed(e.key)
    ensures var behind := [COLON] + ([BLANK] + (Show(e.value) + more));
      Str(ShowEntry(true, e) + more) == Some((e.key, behind)) && Skip(behind) == behind
      && Skip(behind[1..]) == Show(e.value) + more
  {
    hide Show, Str, Quoted;
    var body := Show(e.value) + more;
    var behind := [COLON] + ([BLANK] + body);
    assert ShowEntry(true, e) + more == Quoted(e.key) + behind;
    StrOf(e.key, behind);
    assert behind[1..] == [BLANK] + body && ([BLANK] + body)[1..] == body;
    ShowStarts(e.value);
  }

  /** The members of a printed object are picked out exactly. */
  lemma FieldsOf(d: Doc, keys: seq<Bytes>)
    requires d.Group? && d.braced && Neat(d) && Height(d) <= DEPTH_MAX && Fresh(Nothing(|keys|), keys, d.es)
    ensures Fields(Show(d), keys) == Some(Filled(Nothing(|keys|), keys, d.es))
  {
    hide Skip, FieldsFrom, ShowEntry, ShowRest, AllBlank, Nothing;
    if d.es == [] {
      assert Show(d)[1..] == [RBRACE];
      SkipNone([RBRACE]);
    } else {
      GroupInner(d, []);
      assert Show(d) + [] == Show(d);
      assert ShowRest(true, d.es[1..], d.sep, d.tail) + [] == ShowRest(true, d.es[1..], d.sep, d.tail);
      FieldsFromOf(keys, Nothing(|keys|), d.es, d.sep, d.tail);
    }
  }

  /** Stepping to an item of a printed array. */
  lemma ItemOf(es: seq<Entry>, sep: Bytes, tail: Bytes)
    requires es != [] && NeatAll(es) && AllBlank(tail) && 1 + HeightAll(es) <= DEPTH_MAX
    ensures ItemAt(ShowEntry(false, es[0]) + ShowRest(false, es[1..], sep, tail)) ==
            Item(Show(es[0].value), ShowRest(false, es[1..], sep, tail))
  {
    hide Value, Show, ShowRest;
    var more := ShowRest(false, es[1..], sep, tail);
    assert ShowEntry(false, es[0]) == Show(es[0].value);
    ShowStarts(es[0].value);
    RestEnds(false, es[1..], sep, tail, []);
    assert more + [] == more;
    ValueOf(es[0].value, 1, more);
    AheadOf(Show(es[0].value), more);
  }

  /** The first item of a printed array, or its end. */
  lemma FirstOf(d: Doc)
    requires d.Group? && !d.braced && Neat(d) && Height(d) <= DEPTH_MAX
    ensures Next(Show(d), None) ==
            if d.es == [] then Stop else Item(Show(d.es[0].value), ShowRest(false, d.es[1..], d.sep, d.tail))
  {
    hide Skip, ItemAt, ShowEntry, ShowRest, AllBlank;
    if d.es == [] {
      assert Show(d)[1..] == [RBRACKET];
      SkipNone([RBRACKET]);
      assert ItemAt([RBRACKET]) == Stop by { EndAt(); }
    } else {
      GroupInner(d, []);
      assert Show(d) + [] == Show(d);
      assert ShowRest(false, d.es[1..], d.sep, d.tail) + [] == ShowRest(false, d.es[1..], d.sep, d.tail);
      ItemOf(d.es, d.sep, d.tail);
    }
  }

  lemma EndAt()
    ensures ItemAt([RBRACKET]) == Stop
  {
  }

  /** The item behind another one, or the end. */
  lemma NextOf(list: Bytes, es: seq<Entry>, sep: Bytes, tail: Bytes)
    requires NeatAll(es) && AllBlank(sep) && AllBlank(tail) && 1 + HeightAll(es) <= DEPTH_MAX
    ensures Next(list, Some(ShowRest(false, es, sep, tail))) ==
            if es == [] then Stop else Item(Show(es[0].value), ShowRest(false, es[1..], sep, tail))
  {
    hide Skip, ItemAt, ShowEntry, ShowRest, AllBlank;
    SkipRest(false, es, sep, tail, []);
    assert ShowRest(false, es, sep, tail) + [] == ShowRest(false, es, sep, tail);
    if es == [] {
      assert [Close(false)] + [] == [RBRACKET];
      EndAt();
    } else {
      var next := ShowEntry(false, es[0]) + ShowRest(false, es[1..], sep, tail);
      assert ShowRest(false, es[1..], sep, tail) + [] == ShowRest(false, es[1..], sep, tail);
      assert ([COMMA] + (sep + next))[1..] == sep + next;
      ItemOf(es, sep, tail);
    }
  }

  // ----- Scalars taken back

  function HexChar(d: nat): (c: u8)
    requires d < 16
    ensures HexValue(c) == d && 32 <= c < 127
  {
    if d < 10 then '0' as int + d else 'A' as int + d - 10
  }

  /** The low digits of `v`, in upper case. */
  function HexDigits(v: nat, digits: nat): (b: Bytes)
    ensures |b| == digits && forall i :: 0 <= i < digits ==> 32 <= b[i] < 127
  {
    if digits == 0 then [] else HexDigits(v / 16, digits - 1) + [HexChar(v % 16)]
  }

  function HexText(v: nat, digits: nat): (b: Bytes)
    ensures |b| == digits + 2 && forall i :: 0 <= i < |b| ==> 32 <= b[i] < 127
  {
    [ZERO, 'x' as int] + HexDigits(v, digits)
  }

  function Power16(digits: nat): nat { if digits == 0 then 1 else 16 * Power16(digits - 1) }

  lemma {:induction false} TalliedAppend(a: Bytes, c: u8, n: nat, max: nat, base: nat)
    requires n <= max && base > 0 && Tallied(a, n, max, base).Some?
    ensures Tallied(a + [c], n, max, base) == Tallied([c], Tallied(a, n, max, base).value, max, base)
  {
    hide Tallied;
    TalliedStep(a, n, max, base);
    if a == [] {
      assert a + [c] == [c];
    } else {
      TalliedStep(a + [c], n, max, base);
      assert (a + [c])[1..] == a[1..] + [c];
      TalliedAppend(a[1..], c, n * base + HexValue(a[0]), max, base);
    }
  }

  lemma TalliedStep(b: Bytes, n: nat, max: nat, base: nat)
    requires n <= max && base > 0
    ensures b == [] ==> Tallied(b, n, max, base) == Some(n)
    ensures b != [] ==>
              var d := HexValue(b[0]);
              if d < 0 || d >= base || d > max || n > (max - d) / base then Tallied(b, n, max, base) == None
              else n * base + d <= max && Tallied(b, n, max, base) == Tallied(b[1..], n * base + d, max, base)
  {
    if b != [] {
      var d := HexValue(b[0]);
      if !(d < 0 || d >= base || d > max || n > (max - d) / base) { DigitFits(n, d, max, base); }
    }
  }

  lemma OneTallied(c: u8, n: nat, max: nat, base: nat)
    requires base > 0 && 0 <= HexValue(c) < base && n * base + HexValue(c) <= max && n <= max
    ensures Tallied([c], n, max, base) == Some(n * base + HexValue(c))
  {
    var d := HexValue(c);
    FloorFits(n, base, max - d);
    assert [c][1..] == [];
  }

  lemma FloorFits(n: nat, base: nat, room: nat)
    requires base > 0 && n * base <= room
    ensures n <= room / base
  {
    var q := room / base;
    assert room < q * base + base;
    MultipleBounds(n - q, base);
    assert (n - q) * base == n * base - q * base;
  }

  lemma {:induction false} DecimalTallied(n: nat, max: nat)
    requires n <= max
    ensures Tallied(Decimal(n), 0, max, 10) == Some(n)
  {
    hide Tallied, Decimal;
    DecimalLast(n);
    var c: u8 := '0' as int + n % 10;
    if n < 10 {
      assert [] + [c] == [c];
      OneTallied(c, 0, max, 10);
    } else {
      DecimalTallied(n / 10, max);
      TalliedAppend(Decimal(n / 10), c, 0, max, 10);
      OneTallied(c, n / 10, max, 10);
    }
  }

  lemma {:induction false} HexTallied(v: nat, digits: nat, max: nat)
    requires v <= max && v < Power16(digits)
    ensures Tallied(HexDigits(v, digits), 0, max, 16) == Some(v)
  {
    hide Tallied, HexChar;
    if digits == 0 {
      NothingTallied(max);
    } else {
      var c := HexChar(v % 16);
      HexTallied(v / 16, digits - 1, max);
      TalliedAppend(HexDigits(v / 16, digits - 1), c, 0, max, 16);
      OneTallied(c, v / 16, max, 16);
    }
  }

  lemma NothingTallied(max: nat)
    ensures Tallied([], 0, max, 16) == Some(0)
  {
  }

  lemma SpelledOf(s: Bytes, cap: nat)
    requires Utf8Valid(s) && Showable(s) && |s| < cap
    ensures Spelled(Some(Show(Word(s))), cap) == Some(s)
  {
    hide Str, Quoted;
    StrOf(s, []);
    assert Quoted(s) + [] == Quoted(s);
  }

  lemma CountedOf(n: nat, max: nat)
    requires n <= max
    ensures Counted(Some(Show(Number(n))), max) == Some(n)
  {
    hide Tallied, Decimal;
    DecimalTallied(n, max);
    LeadingZero(n);
  }

  lemma {:induction false} AsciiValid(s: Bytes)
    requires forall i :: 0 <= i < |s| ==> s[i] < 0x80
    ensures Utf8Valid(s)
  {
    if s != [] {
      AsciiIs(s);
      AsciiValid(s[1..]);
    }
  }

  lemma HexedOf(v: nat, digits: nat, max: nat)
    requires v <= max && v < Power16(digits) && 1 <= digits <= 16
    ensures Hexed(Some(Show(Word(HexText(v, digits)))), max) == Some(v)
  {
    hide Tallied, HexDigits, Spelled, Show;
    var s := HexText(v, digits);
    AsciiValid(s);
    SpelledOf(s, HEX_CAP);
    assert s[2..] == HexDigits(v, digits);
    HexTallied(v, digits, max);
  }

  lemma FlaggedOf(yes: bool)
    ensures Flagged(Some(Show(Flag(yes)))) == Some(yes)
  {
    hide Text;
    assert Text("true")[0] == 't' as int && Text("false")[0] == 'f' as int;
  }

  // ----- Text that is not UTF-8

  /** Like a neat document, but its texts may be anything above the control characters. */
  predicate Bare(d: Doc)
    decreases d
  {
    match d
    case Word(s) => forall i :: 0 <= i < |s| ==> s[i] >= 32
    case Number(_) => true
    case Flag(_) => true
    case Group(_, es, lead, sep, tail) => AllBlank(lead) && AllBlank(sep) && AllBlank(tail) && BareAll(es)
  }

  predicate BareAll(es: seq<Entry>)
    decreases es
  {
    es == [] || (Printed(es[0].key) && Bare(es[0].value) && BareAll(es[1..]))
  }

  lemma {:induction false} NeatIsBare(d: Doc)
    requires Neat(d)
    ensures Bare(d)
    decreases d
  {
    if d.Group? {
      AllBare(d.es);
    }
  }

  lemma {:induction false} AllBare(es: seq<Entry>)
    requires NeatAll(es)
    ensures BareAll(es)
    decreases es
  {
    if es != [] {
      NeatIsBare(es[0].value);
      AllBare(es[1..]);
    }
  }

  lemma CharBroken(s: Bytes, rest: Bytes)
    requires s != [] && Utf8Length(s) == 0
    ensures QuotedChars(s) == [s[0]] + QuotedChars(s[1..]) && Char(QuotedChars(s) + ([QUOTE] + rest)) == None && s[0] != QUOTE
  {
    hide Char;
    assert s[0] >= 0x80;
    var b := QuotedChars(s) + ([QUOTE] + rest);
    assert b[0] == s[0];
    Unfinished(s, rest);
    NoChar(b);
  }

  lemma NoChar(b: Bytes)
    requires b != [] && b[0] >= 0x80 && Utf8Length(b) == 0
    ensures Char(b) == None
  {
  }

  /** What does not start a character still does not when the rest of the string is quoted and closed. */
  lemma Unfinished(s: Bytes, rest: Bytes)
    requires s != [] && s[0] >= 0x80 && Utf8Length(s) == 0
    ensures Utf8Length(QuotedChars(s) + ([QUOTE] + rest)) == 0
  {
    hide Utf8Length, QuotedChars;
    var b := QuotedChars(s) + ([QUOTE] + rest);
    FirstKept(s);
    if Utf8Length(b) > 0 {
      Utf8Prefix(b, []);
      Continued(s, rest, Utf8Length(b));
      Utf8Same(s, b);
      assert false;
    }
  }

  lemma FirstKept(s: Bytes)
    requires s != [] && s[0] >= 0x80
    ensures QuotedChars(s) != [] && QuotedChars(s)[0] == s[0]
  {
  }

  lemma Utf8Same(a: Bytes, b: Bytes)
    requires 0 < Utf8Length(b) <= |a| && forall i :: 0 <= i < Utf8Length(b) ==> a[i] == b[i]
    ensures Utf8Length(a) == Utf8Length(b)
  {
    var n := Utf8Length(b);
    assert a[0] == b[0] && (n > 1 ==> a[1] == b[1]) && (n > 2 ==> a[2] == b[2]) && (n > 3 ==> a[3] == b[3]);
  }

  lemma {:induction false} Continued(s: Bytes, rest: Bytes, n: nat)
    requires n <= |QuotedChars(s) + ([QUOTE] + rest)| && forall i :: 0 <= i < n ==> (QuotedChars(s) + ([QUOTE] + rest))[i] >= 0x80
    ensures n <= |s| && forall i :: 0 <= i < n ==> s[i] == (QuotedChars(s) + ([QUOTE] + rest))[i]
  {
    var b := QuotedChars(s) + ([QUOTE] + rest);
    if n > 0 {
      if s == [] {
        assert false;
      } else {
        assert s[0] != QUOTE && s[0] != ESCAPE by { assert b[0] == QuotedChars(s)[0]; }
        var t := QuotedChars(s[1..]) + ([QUOTE] + rest);
        assert b == [s[0]] + t;
        assert forall i :: 0 <= i < n - 1 ==> t[i] == b[i + 1];
        Continued(s[1..], rest, n - 1);
      }
    }
  }

  lemma {:induction false} CharsBroken(s: Bytes, rest: Bytes)
    requires !Utf8Valid(s) && forall i :: 0 <= i < |s| ==> s[i] >= 32
    ensures Chars(QuotedChars(s) + ([QUOTE] + rest)) == None
    decreases |s|
  {
    hide Chars, Char, QuotedChars, Utf8Length;
    var n := Utf8Length(s);
    if n == 0 {
      CharBroken(s, rest);
      CharsStop(QuotedChars(s) + ([QUOTE] + rest));
    } else {
      var more := QuotedChars(s[n..]) + ([QUOTE] + rest);
      CharOf(s, more);
      assert QuotedChars(s) + ([QUOTE] + rest) == QuotedChars(s[..n]) + more;
      CharsBroken(s[n..], rest);
      CharsStep(QuotedChars(s[..n]) + more);
    }
  }

  lemma CharsStop(b: Bytes)
    requires b != [] && b[0] != QUOTE && Char(b) == None
    ensures Chars(b) == None
  {
  }

  /** A printed document with a text that is not UTF-8 is no value. */
  lemma {:induction false} ValueBroken(d: Doc, depth: nat, rest: Bytes)
    requires Bare(d) && !Neat(d) && depth + Height(d) <= DEPTH_MAX && Ends(rest)
    ensures Value(Show(d) + rest, depth) == None
    decreases d
  {
    hide Value, Entries, AfterLiteral, Skip, QuotedChars, Decimal, Chars;
    var b := Show(d) + rest;
    ShowStarts(d);
    ValueUnfolds(b, depth);
    match d
    case Word(s) =>
      CharsBroken(s, rest);
      assert b[1..] == QuotedChars(s) + ([QUOTE] + rest);
    case Group(braced, es, lead, sep, tail) =>
      assert es != [] by { NoneNeat(es); }
      GroupInner(d, rest);
      EntriesBroken(braced, es, sep, tail, depth, rest);
  }

  lemma NoneNeat(es: seq<Entry>)
    ensures es == [] ==> NeatAll(es)
  {
  }

  lemma EntriesStop(b: Bytes, braced: bool, depth: nat)
    requires Keyed(b, braced).Some? && Value(Keyed(b, braced).value, depth + 1) == None
    ensures Entries(b, braced, depth) == None
  {
    hide Keyed, Value;
  }

  lemma {:induction false} EntriesBroken(braced: bool, es: seq<Entry>, sep: Bytes, tail: Bytes, depth: nat, rest: Bytes)
    requires es != [] && BareAll(es) && !NeatAll(es) && AllBlank(sep) && AllBlank(tail) && depth + 1 + HeightAll(es) <= DEPTH_MAX
    ensures Entries(ShowEntry(braced, es[0]) + (ShowRest(braced, es[1..], sep, tail) + rest), braced, depth) == None
    decreases es
  {
    hide Value, Entries, Skip, Show, ShowEntry, ShowRest, Keyed;
    var e, others := es[0], es[1..];
    var more := ShowRest(braced, others, sep, tail) + rest;
    KeyedOf(braced, e, more);
    RestEnds(braced, others, sep, tail, rest);
    assert AllBlank([BLANK]);
    ValueSkips([BLANK], Show(e.value) + more, depth + 1);
    if !Neat(e.value) {
      ValueBroken(e.value, depth + 1, more);
      EntriesStop(ShowEntry(braced, e) + more, braced, depth);
    } else {
      NoneNeat(others);
      ValueOf(e.value, depth + 1, more);
      EntriesUnfold(ShowEntry(braced, e) + more, braced, depth);
      SkipRest(braced, others, sep, tail, rest);
      var next := ShowEntry(braced, others[0]) + (ShowRest(braced, others[1..], sep, tail) + rest);
      assert ([COMMA] + (sep + next))[1..] == sep + next;
      EntriesBroken(braced, others, sep, tail, depth, rest);
    }
  }
}
