/**
 The legacy MDIO configuration text: its strict reader and its printer as functions, and the proof
 that the reader undoes the printer.
 */
module MdioGrammar {
  import opened Words
  import opened Tokens
  import opened MdioConfig

  const KEY_MAX := 40
  const FIELD_MAX := 12

  predicate Space(c: u8) { c == BLANK || 9 <= c <= 13 }

  // ----- Tokens

  function SkipWs(b: Bytes): (r: Bytes)
    ensures |r| <= |b| && (r == [] || !Space(r[0]))
  {
    if b != [] && Space(b[0]) then SkipWs(b[1..]) else b
  }

  /** The bytes behind `c`, if it comes next. */
  function Take(b: Bytes, c: u8): (r: Option<Bytes>)
    ensures r.Some? ==> |r.value| < |b|
  {
    var w := SkipWs(b);
    if w != [] && w[0] == c then Some(w[1..]) else None
  }

  /** String characters up to the closing quote, which is left in place. */
  function Chars(b: Bytes, room: nat): (r: Option<(Bytes, Bytes)>)
    ensures r.Some? ==> |r.value.1| <= |b|
  {
    if b == [] || b[0] == QUOTE then Some(([], b))
    else if b[0] < 32 || b[0] == ESCAPE || room == 0 then None
    else
      match Chars(b[1..], room - 1)
      case None => None
      case Some((s, rest)) => Some(([b[0]] + s, rest))
  }

  /** A plain string that fits a buffer of `cap` bytes, terminator included. */
  function ReadString(b: Bytes, cap: nat): (r: Option<(Bytes, Bytes)>)
    requires cap > 0
    ensures r.Some? ==> |r.value.1| < |b|
  {
    match Take(b, QUOTE)
    case None => None
    case Some(inner) =>
      match Chars(inner, cap - 1)
      case None => None
      case Some((s, rest)) =>
        match Take(rest, QUOTE)
        case None => None
        case Some(after) => Some((s, after))
  }

  /** Digits added to `v`, as long as the number stays within `max`. */
  function Digits(b: Bytes, v: nat, max: nat): (r: Option<(nat, Bytes)>)
    requires v <= max
    ensures r.Some? ==> r.value.0 <= max && |r.value.1| <= |b|
  {
    if b == [] || !Digit(b[0]) then Some((v, b))
    else
      var d := b[0] as int - '0' as int;
      if d > max || v > (max - d) / 10 then None else Digits(b[1..], v * 10 + d, max)
  }

  function ReadNumber(b: Bytes, max: nat): (r: Option<(nat, Bytes)>)
    ensures r.Some? ==> r.value.0 <= max && |r.value.1| < |b|
  {
    var w := SkipWs(b);
    if w == [] || !Digit(w[0]) || (w[0] == ZERO && |w| > 1 && Digit(w[1])) then None
    else
      var d := w[0] as int - '0' as int;
      if d > max then None else Digits(w[1..], d, max)
  }

  datatype Follow = End(rest: Bytes) | More(rest: Bytes) | Bad

  /** What follows an item of a list: its end, another item, or neither. */
  function Next(b: Bytes, close: u8): (r: Follow)
    ensures r.End? || r.More? ==> |r.rest| < |b|
  {
    match Take(b, close)
    case Some(rest) => End(rest)
    case None =>
      match Take(b, COMMA)
      case None => Bad
      case Some(rest) =>
        var w := SkipWs(rest);
        if w != [] && w[0] == close then Bad else More(w)
  }

  // ----- Printed tokens read back

  predicate Plain(s: Bytes) { forall i :: 0 <= i < |s| ==> s[i] >= 32 && s[i] != QUOTE && s[i] != ESCAPE }

  function Quoted(s: Bytes): Bytes { [QUOTE] + s + [QUOTE] }

  lemma {:induction false} CharsOf(s: Bytes, room: nat, rest: Bytes)
    requires Plain(s) && |s| <= room
    ensures Chars(s + [QUOTE] + rest, room) == Some((s, [QUOTE] + rest))
  {
    var b := s + [QUOTE] + rest;
    if s == [] {
      assert b == [QUOTE] + rest;
    } else {
      assert b[1..] == s[1..] + [QUOTE] + rest;
      CharsOf(s[1..], room - 1, rest);
      assert [s[0]] + s[1..] == s;
    }
  }

  lemma ReadStringOf(s: Bytes, cap: nat, rest: Bytes)
    requires Plain(s) && |s| < cap
    ensures ReadString(Quoted(s) + rest, cap) == Some((s, rest))
  {
    var b := Quoted(s) + rest;
    assert b == [QUOTE] + (s + [QUOTE] + rest);
    CharsOf(s, cap - 1, rest);
    assert ([QUOTE] + rest)[1..] == rest;
  }

  predicate NoDigitAhead(rest: Bytes) { rest == [] || !Digit(rest[0]) }

  lemma {:induction false} DigitsOf(n: nat, max: nat, rest: Bytes)
    requires n <= max
    ensures Digits(Decimal(n) + rest, 0, max) == Digits(rest, n, max)
  {
    hide Digits, Decimal;
    DecimalLast(n);
    var d: u8 := '0' as int + n % 10;
    if n < 10 {
      assert Decimal(n) + rest == [d] + rest;
      OneDigit(rest, 0, n, max);
    } else {
      assert Decimal(n) + rest == Decimal(n / 10) + ([d] + rest);
      DigitsOf(n / 10, max, [d] + rest);
      OneDigit(rest, n / 10, n % 10, max);
    }
  }

  lemma DigitsStep(b: Bytes, v: nat, max: nat)
    requires v <= max
    ensures Digits(b, v, max) ==
            if b == [] || !Digit(b[0]) then Some((v, b))
            else
              var d := b[0] as int - '0' as int;
              if d > max || v > (max - d) / 10 then None else Digits(b[1..], v * 10 + d, max)
  {
  }

  lemma OneDigit(rest: Bytes, v: nat, d: nat, max: nat)
    requires d < 10 && v * 10 + d <= max
    ensures Digits(['0' as int + d] + rest, v, max) == Digits(rest, v * 10 + d, max)
  {
    var b: Bytes := ['0' as int + d] + rest;
    assert b[1..] == rest && b[0] == '0' as int + d;
    assert v <= (max - d) / 10;
  }

  lemma {:induction false} LeadingDigit(n: nat)
    ensures Decimal(n)[0] == ZERO ==> n == 0
    ensures n < 10 ==> Decimal(n) == ['0' as int + n]
  {
    if n >= 10 {
      LeadingDigit(n / 10);
    }
  }

  lemma ReadNumberOf(n: nat, max: nat, rest: Bytes)
    requires n <= max && NoDigitAhead(rest)
    ensures ReadNumber(Decimal(n) + rest, max) == Some((n, rest))
  {
    hide SkipWs, Decimal, Digits;
    var b := Decimal(n) + rest;
    assert b[0] == Decimal(n)[0] && Digit(b[0]) && !Space(b[0]);
    LeadingDigit(n);
    DigitsOf(n, max, rest);
    DigitsStep(b, 0, max);
    DigitsStep(rest, n, max);
    SkipNone(b[0], b[1..]);
    assert b == [b[0]] + b[1..];
    if n == 0 {
      assert b[1..] == rest;
    }
  }

  lemma NextMore(rest: Bytes, close: u8, b: Bytes)
    requires close == RBRACE || close == RBRACKET
    requires rest != [] && !Space(rest[0]) && rest[0] != close
    requires b == [COMMA] + rest || b == [COMMA, BLANK] + rest || b == [COMMA, NEWLINE, BLANK, BLANK] + rest
    ensures Next(b, close) == More(rest)
  {
    hide SkipWs;
    SkipNone(COMMA, b[1..]);
    SkipNone(rest[0], rest[1..]);
    assert b == [COMMA] + b[1..] && rest == [rest[0]] + rest[1..];
    assert Take(b, close) == None && Take(b, COMMA) == Some(b[1..]);
    if b == [COMMA] + rest {
      assert b[1..] == rest;
    } else if b == [COMMA, BLANK] + rest {
      assert b[1..] == [BLANK] + rest;
      SkipOne(BLANK, rest);
    } else {
      assert b[1..] == [NEWLINE] + ([BLANK] + ([BLANK] + rest));
      SkipOne(NEWLINE, [BLANK] + ([BLANK] + rest));
      SkipOne(BLANK, [BLANK] + rest);
      SkipOne(BLANK, rest);
    }
  }

  lemma SkipOne(c: u8, rest: Bytes)
    requires Space(c)
    ensures SkipWs([c] + rest) == SkipWs(rest)
  {
    assert ([c] + rest)[1..] == rest;
  }

  lemma NextEnd(rest: Bytes, close: u8, b: Bytes)
    requires close == RBRACE || close == RBRACKET
    requires b == [close] + rest || b == [NEWLINE, close] + rest
    ensures Next(b, close) == End(rest)
  {
    hide Take;
    TakeNow(close, rest);
    if b == [NEWLINE, close] + rest {
      assert b == [NEWLINE] + ([close] + rest);
      TakeSpaced(NEWLINE, close, rest);
    }
  }

  lemma SkipNone(c: u8, rest: Bytes)
    requires !Space(c)
    ensures SkipWs([c] + rest) == [c] + rest
  {
  }

  lemma TakeNow(c: u8, rest: Bytes)
    requires !Space(c)
    ensures Take([c] + rest, c) == Some(rest)
  {
    hide SkipWs;
    SkipNone(c, rest);
    assert ([c] + rest)[1..] == rest;
  }

  lemma TakeSpaced(space: u8, c: u8, rest: Bytes)
    requires Space(space) && !Space(c)
    ensures Take([space] + ([c] + rest), c) == Some(rest)
  {
    hide SkipWs;
    SkipOne(space, [c] + rest);
    SkipNone(c, rest);
    assert ([c] + rest)[1..] == rest;
  }

  lemma TakeOf(c: u8, rest: Bytes, b: Bytes)
    requires !Space(c) && (b == [c] + rest || b == [BLANK, c] + rest)
    ensures Take(b, c) == Some(rest)
  {
    hide Take;
    TakeNow(c, rest);
    if b == [BLANK, c] + rest {
      assert b == [BLANK] + ([c] + rest);
      TakeSpaced(BLANK, c, rest);
    }
  }

  /** A space ahead of a token does not matter. */
  lemma BlankAhead(b: Bytes, cap: nat, max: nat)
    requires cap > 0
    ensures ReadString([BLANK] + b, cap) == ReadString(b, cap)
    ensures ReadNumber([BLANK] + b, max) == ReadNumber(b, max)
    ensures Take([BLANK] + b, LBRACKET) == Take(b, LBRACKET)
  {
    assert SkipWs([BLANK] + b) == SkipWs(b);
  }

  // ----- Rules and settings

  const REG := 0
  const VAL := 1
  const MASK := 2

  function FieldKey(bit: nat): Bytes { if bit == REG then Text("reg") else if bit == VAL then Text("val") else Text("mask") }

  function FieldOf(key: Bytes): Option<nat> {
    if key == Text("reg") then Some(REG) else if key == Text("val") then Some(VAL) else if key == Text("mask") then Some(MASK) else None
  }

  lemma FieldKeys()
    ensures forall bit :: 0 <= bit <= MASK ==> FieldOf(FieldKey(bit)) == Some(bit) && Plain(FieldKey(bit)) && 0 < |FieldKey(bit)| < FIELD_MAX
  {
    hide Text;
    assert |Text("mask")| == 4 && |Text("reg")| == |Text("val")| == 3;
    assert Text("val")[0] == 'v' as int && Text("reg")[0] == 'r' as int;
    FieldPlain("reg");
    FieldPlain("val");
    FieldPlain("mask");
  }

  lemma FieldPlain(name: string)
    requires forall i :: 0 <= i < |name| ==> 'a' <= name[i] <= 'z'
    ensures Plain(Text(name))
  {
    hide Text;
  }

  function FieldSet(r: Rule, bit: nat, v: u16): Rule
    requires bit == REG ==> v < 0x100
  {
    if bit == REG then r.(reg := v) else if bit == VAL then r.(val := v) else r.(mask := v)
  }

  function FieldMax(bit: nat): u16 { if bit == REG then 31 else 65535 }

  /** The fields of one rule or setting, each at most once, in any order; the register and the value must be there. */
  function ReadFields(b: Bytes, r: Rule, seen: set<nat>, last: nat): (q: Option<(Rule, Bytes)>)
    ensures q.Some? ==> |q.value.1| < |b|
    decreases |b|
  {
    match ReadString(b, FIELD_MAX)
    case None => None
    case Some((key, b1)) =>
      match Take(b1, COLON)
      case None => None
      case Some(b2) =>
        match FieldOf(key)
        case None => None
        case Some(bit) =>
          if bit > last || bit in seen then None
          else
            match ReadNumber(b2, FieldMax(bit))
            case None => None
            case Some((v, b3)) =>
              var q := Next(b3, RBRACE);
              if q.Bad? then None
              else if q.End? then (if {REG, VAL} <= seen + {bit} then Some((FieldSet(r, bit, v), q.rest)) else None)
              else ReadFields(q.rest, FieldSet(r, bit, v), seen + {bit}, last)
  }

  /** How an object goes on after one of its fields. */
  function FieldsAfter(q: Follow, r: Rule, seen: set<nat>, last: nat): Option<(Rule, Bytes)> {
    if q.Bad? then None
    else if q.End? then (if {REG, VAL} <= seen then Some((r, q.rest)) else None)
    else ReadFields(q.rest, r, seen, last)
  }

  function ReadRule(b: Bytes): Option<(Rule, Bytes)> {
    match Take(b, LBRACE)
    case None => None
    case Some(inner) => ReadFields(inner, Rule(0, 0, 0xFFFF), {}, MASK)
  }

  function ReadSetting(b: Bytes): Option<(Setting, Bytes)> {
    match Take(b, LBRACE)
    case None => None
    case Some(inner) =>
      match ReadFields(inner, Rule(0, 0, 0), {}, VAL)
      case None => None
      case Some((r, rest)) => Some((Setting(r.reg, r.val), rest))
  }

  function ShowField(bit: nat, v: nat): Bytes { Quoted(FieldKey(bit)) + [COLON, BLANK] + Decimal(v) }

  function ShowRule(r: Rule): Bytes {
    [LBRACE] + (ShowField(REG, r.reg) + [COMMA, BLANK] + (ShowField(VAL, r.val) + [COMMA, BLANK] + (ShowField(MASK, r.mask) + [RBRACE])))
  }

  function ShowSetting(e: Setting): Bytes {
    [LBRACE] + (ShowField(REG, e.reg) + [COMMA, BLANK] + (ShowField(VAL, e.val) + [RBRACE]))
  }

  /** One printed field, read back. */
  lemma ReadFieldsStep(bit: nat, v: u16, follow: Bytes, r: Rule, seen: set<nat>, last: nat)
    requires bit <= last <= MASK && bit !in seen && v <= FieldMax(bit) && follow != [] && NoDigitAhead(follow)
    ensures ReadFields(ShowField(bit, v) + follow, r, seen, last) ==
            FieldsAfter(Next(follow, RBRACE), FieldSet(r, bit, v), seen + {bit}, last)
  {
    hide ReadString, ReadNumber, Take, Next, Decimal, Quoted, Text, FieldOf, FieldKey;
    FieldKeys();
    var key, number := FieldKey(bit), Decimal(v) + follow;
    var b := ShowField(bit, v) + follow;
    assert b == Quoted(key) + ([COLON] + ([BLANK] + number));
    ReadStringOf(key, FIELD_MAX, [COLON] + ([BLANK] + number));
    TakeOf(COLON, [BLANK] + number, [COLON] + ([BLANK] + number));
    BlankAhead(number, 1, FieldMax(bit));
    ReadNumberOf(v, FieldMax(bit), follow);
  }

  lemma ShowFieldStarts(bit: nat, v: nat)
    ensures ShowField(bit, v) != [] && ShowField(bit, v)[0] == QUOTE
  {
  }

  lemma MoreFields(bit: nat, v: nat, follow: Bytes)
    ensures Next([COMMA, BLANK] + (ShowField(bit, v) + follow), RBRACE) == More(ShowField(bit, v) + follow)
  {
    ShowFieldStarts(bit, v);
    NextMore(ShowField(bit, v) + follow, RBRACE, [COMMA, BLANK] + (ShowField(bit, v) + follow));
  }

  lemma ReadRuleOf(r: Rule, rest: Bytes)
    requires r.reg < REGISTERS
    ensures ReadRule(ShowRule(r) + rest) == Some((r, rest))
  {
    hide ReadFields, ShowField, Next;
    var third := ShowField(MASK, r.mask) + ([RBRACE] + rest);
    var second := ShowField(VAL, r.val) + ([COMMA, BLANK] + third);
    var first := ShowField(REG, r.reg) + ([COMMA, BLANK] + second);
    assert ShowRule(r) + rest == [LBRACE] + first;
    TakeOf(LBRACE, first, [LBRACE] + first);
    var blank := Rule(0, 0, 0xFFFF);
    ReadFieldsStep(REG, r.reg, [COMMA, BLANK] + second, blank, {}, MASK);
    MoreFields(VAL, r.val, [COMMA, BLANK] + third);
    ReadFieldsStep(VAL, r.val, [COMMA, BLANK] + third, blank.(reg := r.reg), {} + {REG}, MASK);
    MoreFields(MASK, r.mask, [RBRACE] + rest);
    ReadFieldsStep(MASK, r.mask, [RBRACE] + rest, blank.(reg := r.reg, val := r.val), {} + {REG} + {VAL}, MASK);
    NextEnd(rest, RBRACE, [RBRACE] + rest);
  }

  lemma ReadSettingOf(e: Setting, rest: Bytes)
    requires e.reg < REGISTERS
    ensures ReadSetting(ShowSetting(e) + rest) == Some((e, rest))
  {
    hide ReadFields, ShowField, Next;
    var second := ShowField(VAL, e.val) + ([RBRACE] + rest);
    var first := ShowField(REG, e.reg) + ([COMMA, BLANK] + second);
    assert ShowSetting(e) + rest == [LBRACE] + first;
    TakeOf(LBRACE, first, [LBRACE] + first);
    var blank := Rule(0, 0, 0);
    ReadFieldsStep(REG, e.reg, [COMMA, BLANK] + second, blank, {}, VAL);
    MoreFields(VAL, e.val, [RBRACE] + rest);
    ReadFieldsStep(VAL, e.val, [RBRACE] + rest, blank.(reg := e.reg), {} + {REG}, VAL);
    NextEnd(rest, RBRACE, [RBRACE] + rest);
  }

  // ----- Lists

  /** What a list holds: rules, older rules that are bare register numbers, settings, or registers. */
  datatype Kind = Rules | LegacyRules | Settings | Registers

  datatype Item = ARule(rule: Rule) | ASetting(setting: Setting) | ARegister(reg: u8)

  function ReadItem(kind: Kind, b: Bytes): (r: Option<(Item, Bytes)>)
    ensures r.Some? ==> |r.value.1| < |b|
  {
    match kind
    case Rules =>
      (match ReadRule(b)
       case None => None
       case Some((rule, rest)) => Some((ARule(rule), rest)))
    case LegacyRules =>
      (match ReadNumber(b, 31)
       case None => None
       case Some((v, rest)) => Some((ARule(Rule(v, 0, 0)), rest)))
    case Settings =>
      (match ReadSetting(b)
       case None => None
       case Some((e, rest)) => Some((ASetting(e), rest)))
    case Registers =>
      (match ReadNumber(b, 31)
       case None => None
       case Some((v, rest)) => Some((ARegister(v), rest)))
  }

  function Capacity(kind: Kind): nat { if kind == Rules || kind == LegacyRules then RULES_MAX else 32 }

  /** Items separated by commas, up to the closing bracket; no more than fit, those already read included. */
  function ReadItems(kind: Kind, b: Bytes, sofar: seq<Item>): (r: Option<(seq<Item>, Bytes)>)
    ensures r.Some? ==> |r.value.1| < |b| && |r.value.0| <= Capacity(kind)
    decreases |b|
  {
    if |sofar| >= Capacity(kind) then None
    else
      match ReadItem(kind, b)
      case None => None
      case Some((x, rest)) =>
        match Next(rest, RBRACKET)
        case Bad => None
        case End(after) => Some((sofar + [x], after))
        case More(after) => ReadItems(kind, after, sofar + [x])
  }

  function ReadList(kind: Kind, b: Bytes): (r: Option<(seq<Item>, Bytes)>)
    ensures r.Some? ==> |r.value.1| < |b| && |r.value.0| <= Capacity(kind)
  {
    match Take(b, LBRACKET)
    case None => None
    case Some(inner) =>
      match Take(inner, RBRACKET)
      case Some(rest) => Some(([], rest))
      case None => ReadItems(kind, inner, [])
  }

  function ShowItem(x: Item): Bytes {
    match x
    case ARule(r) => ShowRule(r)
    case ASetting(e) => ShowSetting(e)
    case ARegister(v) => Decimal(v)
  }

  predicate Belongs(kind: Kind, x: Item) {
    match x
    case ARule(r) => kind == Rules && r.reg < REGISTERS
    case ASetting(e) => kind == Settings && e.reg < REGISTERS
    case ARegister(v) => kind == Registers && v < REGISTERS
  }

  function ShowItems(xs: seq<Item>): Bytes {
    if xs == [] then [] else ShowItem(xs[0]) + (if |xs| > 1 then [COMMA, BLANK] + ShowItems(xs[1..]) else [])
  }

  function ShowList(xs: seq<Item>): Bytes { [LBRACKET] + ShowItems(xs) + [RBRACKET] }

  lemma ReadItemOf(kind: Kind, x: Item, rest: Bytes)
    requires Belongs(kind, x) && rest != [] && (rest[0] == COMMA || rest[0] == RBRACKET)
    ensures ReadItem(kind, ShowItem(x) + rest) == Some((x, rest))
    ensures ShowItem(x) != [] && !Space(ShowItem(x)[0]) && ShowItem(x)[0] != RBRACKET
  {
    hide ReadRule, ReadSetting, ReadNumber, ShowField, Decimal;
    match x
    case ARule(r) => ReadRuleOf(r, rest);
    case ASetting(e) => ReadSettingOf(e, rest);
    case ARegister(v) => ReadNumberOf(v, 31, rest);
  }

  lemma {:induction false} ReadItemsOf(kind: Kind, xs: seq<Item>, sofar: seq<Item>, rest: Bytes)
    requires xs != [] && |sofar| + |xs| <= Capacity(kind) && forall i :: 0 <= i < |xs| ==> Belongs(kind, xs[i])
    ensures ReadItems(kind, ShowItems(xs) + [RBRACKET] + rest, sofar) == Some((sofar + xs, rest))
    ensures ShowItems(xs) != [] && !Space(ShowItems(xs)[0]) && ShowItems(xs)[0] != RBRACKET
    decreases |xs|
  {
    hide ReadItem, ShowItem, Next;
    var b := ShowItems(xs) + [RBRACKET] + rest;
    if |xs| == 1 {
      var follow := [RBRACKET] + rest;
      assert b == ShowItem(xs[0]) + follow;
      ReadItemOf(kind, xs[0], follow);
      NextEnd(rest, RBRACKET, follow);
      assert xs == [xs[0]];
    } else {
      var tail := ShowItems(xs[1..]) + [RBRACKET] + rest;
      var follow := [COMMA, BLANK] + tail;
      assert b == ShowItem(xs[0]) + follow;
      ReadItemOf(kind, xs[0], follow);
      ReadItemsOf(kind, xs[1..], sofar + [xs[0]], rest);
      NextMore(tail, RBRACKET, follow);
      assert sofar + [xs[0]] + xs[1..] == sofar + xs;
    }
  }

  lemma ReadListOf(kind: Kind, xs: seq<Item>, rest: Bytes)
    requires |xs| <= Capacity(kind) && forall i :: 0 <= i < |xs| ==> Belongs(kind, xs[i])
    ensures ReadList(kind, ShowList(xs) + rest) == Some((xs, rest))
  {
    hide ReadItems, ShowItem;
    var inner := ShowItems(xs) + [RBRACKET] + rest;
    assert ShowList(xs) + rest == [LBRACKET] + inner;
    TakeOf(LBRACKET, inner, [LBRACKET] + inner);
    if xs == [] {
      assert inner == [RBRACKET] + rest;
      TakeOf(RBRACKET, rest, inner);
    } else {
      ReadItemsOf(kind, xs, [], rest);
      assert inner[0] == ShowItems(xs)[0];
      assert [] + xs == xs;
    }
  }
}
