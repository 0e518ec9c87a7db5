/**
 The configuration reader as it runs: a cursor moving over the text, proved against the grammar;
 and the printer, appending into a buffer of limited size.
 */
module MdioReader {
  import opened Words
  import opened Statuses
  import opened Tokens
  import opened MdioConfig
  import opened MdioGrammar
  import opened MdioCodec

  class Cursor {
    const json: Bytes
    var at: nat

    ghost predicate Valid()
      reads this
    {
      at <= |json|
    }

    ghost function Rest(): Bytes
      reads this
      requires Valid()
    {
      json[at..]
    }

    constructor (json: Bytes)
      ensures Valid() && Rest() == json && this.json == json
    {
      this.json, at := json, 0;
    }

    lemma Step(n: nat)
      requires Valid() && at + n <= |json|
      ensures Rest()[n..] == json[at + n..]
    {
    }

    method Ws()
      requires Valid()
      modifies this
      ensures Valid() && Rest() == SkipWs(old(Rest()))
    {
      while at < |json| && Space(json[at])
        invariant Valid() && SkipWs(Rest()) == SkipWs(old(Rest()))
      {
        Step(1);
        at := at + 1;
      }
    }

    method Char(c: u8) returns (ok: bool)
      requires Valid()
      modifies this
      ensures Valid()
      ensures match Take(old(Rest()), c) case None => !ok case Some(rest) => ok && Rest() == rest
      ensures !ok ==> Rest() == SkipWs(old(Rest()))
    {
      Ws();
      if at == |json| || json[at] != c {
        return false;
      }
      Step(1);
      at := at + 1;
      ok := true;
    }

    method Str(cap: nat) returns (ok: bool, s: Bytes)
      requires Valid() && cap > 0
      modifies this
      ensures Valid()
      ensures match ReadString(old(Rest()), cap) case None => !ok case Some((t, rest)) => ok && s == t && Rest() == rest
    {
      s := [];
      ok := Char(QUOTE);
      if !ok {
        return;
      }
      ghost var inner := Rest();
      PrependNothing(Chars(inner, cap - 1));
      while at < |json| && json[at] != QUOTE
        invariant Valid() && |s| <= cap - 1
        invariant Chars(inner, cap - 1) == Prepend(s, Chars(Rest(), cap - 1 - |s|))
      {
        var c := json[at];
        PrependStep(s, Rest(), cap - 1 - |s|);
        Step(1);
        at := at + 1;
        if c < 32 || c == ESCAPE || |s| + 1 >= cap {
          return false, s;
        }
        s := s + [c];
      }
      assert s + [] == s;
      ok := Char(QUOTE);
    }

    method Number(max: nat) returns (ok: bool, v: nat)
      requires Valid()
      modifies this
      ensures Valid() && v <= max
      ensures match ReadNumber(old(Rest()), max) case None => !ok case Some((n, rest)) => ok && v == n && Rest() == rest
    {
      hide Digits, SkipWs;
      v := 0;
      Ws();
      if at == |json| || !Digit(json[at]) {
        return false, 0;
      }
      if json[at] == ZERO && at + 1 < |json| && Digit(json[at + 1]) {
        return false, 0;
      }
      ghost var first := Rest();
      DigitsStep(first, 0, max);
      while at < |json| && Digit(json[at])
        invariant Valid() && v <= max && Digits(first, 0, max) == Digits(Rest(), v, max)
      {
        var d := json[at] as int - '0' as int;
        DigitsStep(Rest(), v, max);
        Step(1);
        at := at + 1;
        if d > max || v > (max - d) / 10 {
          return false, 0;
        }
        v := v * 10 + d;
      }
      DigitsStep(Rest(), v, max);
      ok := true;
    }

    /** Whether a list ends here, goes on, or is broken. */
    method Following(close: u8) returns (more: int)
      requires Valid()
      modifies this
      ensures Valid()
      ensures match Next(old(Rest()), close)
              case Bad => more == -1
              case End(rest) => more == 0 && Rest() == rest
              case More(rest) => more == 1 && Rest() == rest
    {
      SkipTwice(Rest());
      var ok := Char(close);
      if ok {
        return 0;
      }
      ok := Char(COMMA);
      if !ok {
        return -1;
      }
      Ws();
      more := if at < |json| && json[at] == close then -1 else 1;
    }

    /** The fields of a rule or a setting. */
    method Fields(blank: Rule, last: nat) returns (ok: bool, r: Rule)
      requires Valid()
      modifies this
      ensures Valid()
      ensures match ReadFields(old(Rest()), blank, {}, last) case None => !ok case Some((q, rest)) => ok && r == q && Rest() == rest
    {
      hide ReadString, ReadNumber, Take, Next, FieldOf;
      r := blank;
      var seen: set<nat> := {};
      ghost var whole := ReadFields(Rest(), blank, {}, last);
      while true
        invariant Valid() && whole == ReadFields(Rest(), r, seen, last)
        decreases |json| - at
      {
        ghost var here := Rest();
        FieldsProgress(here, r, seen, last);
        var key, v;
        ok, key := Str(FIELD_MAX);
        if !ok {
          return;
        }
        ok := Char(COLON);
        if !ok {
          return;
        }
        var field := FieldOf(key);
        if field.None? || field.value > last || field.value in seen {
          return false, r;
        }
        var bit := field.value;
        ok, v := Number(FieldMax(bit));
        if !ok {
          return;
        }
        seen, r := seen + {bit}, FieldSet(r, bit, v);
        var more := Following(RBRACE);
        if more == 0 {
          return {REG, VAL} <= seen, r;
        }
        if more < 0 {
          return false, r;
        }
      }
    }

    /** One item of a list. */
    method ListItem(kind: Kind) returns (ok: bool, x: Item)
      requires Valid()
      modifies this
      ensures Valid()
      ensures match ReadItem(kind, old(Rest())) case None => !ok case Some((y, rest)) => ok && x == y && Rest() == rest
    {
      hide ReadFields, ReadNumber, Take;
      x := ARegister(0);
      if kind == LegacyRules || kind == Registers {
        var v;
        ok, v := Number(31);
        if ok {
          x := if kind == LegacyRules then ARule(Rule(v, 0, 0)) else ARegister(v);
        }
        return;
      }
      ok := Char(LBRACE);
      if !ok {
        return;
      }
      var r;
      ok, r := Fields(Rule(0, 0, if kind == Rules then 0xFFFF else 0), if kind == Rules then MASK else VAL);
      x := if kind == Rules then ARule(r) else ASetting(Setting(r.reg, r.val));
    }

    method List(kind: Kind) returns (ok: bool, xs: seq<Item>)
      requires Valid()
      modifies this
      ensures Valid()
      ensures match ReadList(kind, old(Rest())) case None => !ok case Some((ys, rest)) => ok && xs == ys && Rest() == rest
    {
      hide ReadItem, Next, Take;
      xs := [];
      ok := Char(LBRACKET);
      if !ok {
        return;
      }
      ghost var inner := Rest();
      SkipTwice(inner);
      ItemsSkip(kind, inner, []);
      var empty := Char(RBRACKET);
      if empty {
        return true, xs;
      }
      ghost var whole := ReadItems(kind, inner, []);
      while true
        invariant Valid() && whole == ReadItems(kind, Rest(), xs)
        decreases |json| - at
      {
        ghost var here := Rest();
        if |xs| >= Capacity(kind) {
          return false, xs;
        }
        ItemsProgress(kind, here, xs);
        var x;
        ok, x := ListItem(kind);
        if !ok {
          return;
        }
        xs := xs + [x];
        var more := Following(RBRACKET);
        if more <= 0 {
          return more == 0, xs;
        }
      }
    }

    method Flag() returns (ok: bool, flag: bool)
      requires Valid()
      modifies this
      ensures Valid()
      ensures match ReadFlag(old(Rest())) case None => !ok case Some((f, rest)) => ok && flag == f && Rest() == rest
    {
      hide Text;
      Ws();
      var yes, no := Text("true"), Text("false");
      if |json| - at >= 4 && json[at..at + 4] == yes {
        assert Rest()[..4] == json[at..at + 4];
        Step(4);
        at := at + 4;
        return true, true;
      }
      assert |json| - at >= 4 ==> Rest()[..4] == json[at..at + 4];
      assert |json| - at >= 5 ==> Rest()[..5] == json[at..at + 5];
      if |json| - at >= 5 && json[at..at + 5] == no {
        Step(5);
        at := at + 5;
        return true, false;
      }
      ok, flag := false, false;
    }

    /** The value of one member, put where it belongs. */
    method Value(k: nat, c: Config, seen: set<nat>) returns (ok: bool, d: Config)
      requires Valid()
      modifies this
      ensures Valid()
      ensures match ReadValue(k, old(Rest()), c, seen) case None => !ok case Some((e, rest)) => ok && d == e && Rest() == rest
    {
      hide ReadString, ReadNumber, ReadList, ReadFlag, PolicyText, RulesIn, SettingsIn, RegistersIn;
      d := c;
      if k == NAME {
        var s;
        ok, s := Str(NAME_MAX);
        d := c.(name := s);
      } else if k == POLICY {
        var s;
        ok, s := Str(KEY_MAX);
        if ok && s == PolicyText(Whitelist) {
          d := c.(policy := Whitelist);
        } else if ok && s == PolicyText(Blacklist) {
          d := c.(policy := Blacklist);
        } else {
          ok := false;
        }
      } else if k == AUTOPOLL {
        var flag;
        ok, flag := Flag();
        d := c.(autopoll := flag);
      } else if k == AUTOPOLL_REGS || k == WHITELIST || k == ALLOW_REGS || k == BLACKLIST || k == DENY_REGS || k == SETTINGS {
        ok, d := ListValue(k, c, seen);
      } else {
        var v;
        ok, v := Number(NumberMax(k));
        if ok {
          d := if k == PHY_ADDR then c.(phyAddr := v) else if k == REG_COUNT then c.(regCount := v)
               else if k == REG_DELAY then c.(regDelay := v) else c.(cycleDelay := v);
        }
      }
    }

    method ListValue(k: nat, c: Config, seen: set<nat>) returns (ok: bool, d: Config)
      requires Valid()
      requires k == AUTOPOLL_REGS || k == WHITELIST || k == ALLOW_REGS || k == BLACKLIST || k == DENY_REGS || k == SETTINGS
      modifies this
      ensures Valid()
      ensures match ReadValue(k, old(Rest()), c, seen) case None => !ok case Some((e, rest)) => ok && d == e && Rest() == rest
    {
      hide ReadList, RulesIn, SettingsIn, RegistersIn, ReadString, ReadPolicy, ReadFlag;
      d := c;
      if ((k == WHITELIST || k == ALLOW_REGS) && {WHITELIST, ALLOW_REGS} <= seen)
         || ((k == BLACKLIST || k == DENY_REGS) && {BLACKLIST, DENY_REGS} <= seen) {
        return false, c;
      }
      var kind := if k == AUTOPOLL_REGS then Registers else if k == SETTINGS then Settings
                  else if k == ALLOW_REGS || k == DENY_REGS then LegacyRules else Rules;
      var xs;
      ok, xs := List(kind);
      d := if k == AUTOPOLL_REGS then c.(autopollRegs := RegistersIn(xs))
           else if k == WHITELIST || k == ALLOW_REGS then c.(whitelist := RulesIn(xs))
           else if k == BLACKLIST || k == DENY_REGS then c.(blacklist := RulesIn(xs))
           else c.(settings := SettingsIn(xs));
    }

    method Members() returns (ok: bool, c: Config, seen: set<nat>)
      requires Valid()
      modifies this
      ensures Valid()
      ensures match ReadMembers(old(Rest()), START, {})
              case None => !ok
              case Some((d, s, rest)) => ok && c == d && seen == s && Rest() == rest
    {
      hide ReadString, Take, KeyFrom, ReadValue, Next;
      c, seen := START, {};
      ghost var whole := ReadMembers(Rest(), START, {});
      while true
        invariant Valid() && whole == ReadMembers(Rest(), c, seen)
        decreases |json| - at
      {
        MembersProgress(Rest(), c, seen);
        var key;
        ok, key := Str(KEY_MAX);
        if !ok {
          return;
        }
        ok := Char(COLON);
        if !ok {
          return;
        }
        var found := KeyFrom(key, 0);
        if found.None? || found.value in seen {
          return false, c, seen;
        }
        seen := seen + {found.value};
        ok, c := Value(found.value, c, seen);
        if !ok {
          return;
        }
        var more := Following(RBRACE);
        if more <= 0 {
          return more == 0, c, seen;
        }
      }
    }
  }

  /** A whole file, or nothing. */
  method Parse(json: Bytes) returns (c: Option<Config>)
    ensures c == ParseConfig(json)
  {
    hide ReadMembers, Validate, Take;
    var p := new Cursor(json);
    var ok := p.Char(LBRACE);
    if !ok {
      return None;
    }
    var d, seen;
    ok, d, seen := p.Members();
    if !ok {
      return None;
    }
    p.Ws();
    if p.at != |json| || !({NAME, PHY_ADDR, REG_COUNT, POLICY} <= seen) || Validate(d) != Ok {
      return None;
    }
    c := Some(d);
  }

  // ----- The printer

  /** A bounded buffer: a piece is added whole or not at all, and room is kept for the terminator. */
  class Printer {
    const cap: nat
    var out: Bytes
    var failed: bool
    /** Everything that was to be printed. */
    ghost var meant: Bytes

    ghost predicate Valid()
      reads this
    {
      && (!failed ==> out == meant && |out| < cap)
      && (failed ==> |meant| >= cap)
    }

    constructor (cap: nat)
      requires cap > 0
      ensures Valid() && meant == [] && this.cap == cap
    {
      this.cap, out, failed, meant := cap, [], false, [];
    }

    method Add(piece: Bytes)
      requires Valid()
      modifies this`out, this`failed, this`meant
      ensures Valid() && meant == old(meant) + piece
    {
      if failed || |piece| >= cap - |out| {
        failed := true;
      } else {
        out := out + piece;
      }
      meant := meant + piece;
    }

    method Items(xs: seq<Item>)
      requires Valid()
      modifies this`out, this`failed, this`meant
      ensures Valid() && meant == old(meant) + ShowItems(xs)
    {
      hide ShowItems, ShowItem, Tail;
      var i := 0;
      ghost var before := meant;
      TailEnds(xs);
      while i < |xs|
        invariant 0 <= i <= |xs| && Valid() && meant + Tail(xs, i) == before + ShowItems(xs)
      {
        TailStep(xs, i);
        ghost var here := meant;
        if i > 0 {
          Add([COMMA, BLANK]);
        }
        Add(ShowItem(xs[i]));
        assert meant + Tail(xs, i + 1) == here + Tail(xs, i);
        i := i + 1;
      }
      TailEnds(xs);
      assert meant + [] == meant;
    }

    method Member(c: Config, k: nat)
      requires Valid() && k <= SETTINGS
      modifies this`out, this`failed, this`meant
      ensures Valid() && meant == old(meant) + ShowMember(c, k)
    {
      hide KeyText, ShowItems, ShowValue, Quoted;
      ghost var before := meant;
      Add(Quoted(KeyText(k)));
      Add([COLON, BLANK]);
      ghost var here := meant;
      assert here == before + (Quoted(KeyText(k)) + [COLON, BLANK]);
      MemberValue(c, k);
      assert meant == before + (Quoted(KeyText(k)) + [COLON, BLANK] + ShowValue(c, k));
    }

    method MemberValue(c: Config, k: nat)
      requires Valid() && k <= SETTINGS
      modifies this`out, this`failed, this`meant
      ensures Valid() && meant == old(meant) + ShowValue(c, k)
    {
      hide ShowItems, Decimal, PolicyText, Text, Quoted;
      if k == AUTOPOLL_REGS || k == WHITELIST || k == BLACKLIST || k == SETTINGS {
        var xs := if k == AUTOPOLL_REGS then RegisterItems(c.autopollRegs) else if k == WHITELIST then RuleItems(c.whitelist)
                  else if k == BLACKLIST then RuleItems(c.blacklist) else SettingItems(c.settings);
        assert ShowValue(c, k) == ShowList(xs);
        hide ShowValue;
        ghost var before := meant;
        Add([LBRACKET]);
        Items(xs);
        Add([RBRACKET]);
        assert meant == before + ([LBRACKET] + ShowItems(xs) + [RBRACKET]);
      } else {
        Add(ShowValue(c, k));
      }
    }
  }

  /** What is left to print of a list after `i` items. */
  function Tail(xs: seq<Item>, i: nat): Bytes
    requires i <= |xs|
  {
    if i == |xs| then [] else (if i > 0 then [COMMA, BLANK] else []) + ShowItems(xs[i..])
  }

  lemma TailStep(xs: seq<Item>, i: nat)
    requires i < |xs|
    ensures Tail(xs, i) == (if i > 0 then [COMMA, BLANK] else []) + ShowItem(xs[i]) + Tail(xs, i + 1)
  {
    hide ShowItem;
    assert xs[i..][1..] == xs[i + 1..];
  }

  lemma TailEnds(xs: seq<Item>)
    ensures Tail(xs, 0) == ShowItems(xs) && Tail(xs, |xs|) == []
  {
    hide ShowItem;
    assert xs[0..] == xs;
  }

  lemma ShowFromStep(c: Config, k: nat)
    requires k < SETTINGS
    ensures ShowFrom(c, k) == ShowMember(c, k) + (SEPARATOR + ShowFrom(c, k + 1))
    ensures ShowFrom(c, SETTINGS) == ShowMember(c, SETTINGS) + CLOSING
  {
    hide ShowMember;
  }

  /** Prints a valid configuration if it fits, terminator included. */
  method Format(c: Config, cap: nat) returns (status: Status, text: Bytes)
    ensures if cap == 0 || Validate(c) != Ok then status == Malformed && text == []
            else if |FormatConfig(c)| >= cap then status == Range && text == []
            else status == Ok && text == FormatConfig(c)
  {
    hide Validate, ShowMember, ShowFrom;
    if cap == 0 || Validate(c) != Ok {
      return Malformed, [];
    }
    var p := new Printer(cap);
    p.Add([LBRACE, NEWLINE, BLANK, BLANK]);
    ghost var head := p.meant;
    var k := 0;
    while k < SETTINGS
      invariant 0 <= k <= SETTINGS && p.Valid() && p.cap == cap
      invariant p.meant + ShowFrom(c, k) == FormatConfig(c)
    {
      ShowFromStep(c, k);
      ghost var here := p.meant;
      p.Member(c, k);
      p.Add(SEPARATOR);
      assert p.meant + ShowFrom(c, k + 1) == here + ShowFrom(c, k);
      k := k + 1;
    }
    ShowFromStep(c, 0);
    head := p.meant;
    p.Member(c, SETTINGS);
    p.Add(CLOSING);
    assert p.meant == head + ShowFrom(c, SETTINGS);
    if p.failed {
      return Range, [];
    }
    status, text := Ok, p.out;
  }

  function Prepend(s: Bytes, r: Option<(Bytes, Bytes)>): Option<(Bytes, Bytes)> {
    if r.None? then None else Some((s + r.value.0, r.value.1))
  }

  lemma PrependStep(s: Bytes, b: Bytes, room: nat)
    requires b != [] && b[0] != QUOTE
    ensures Prepend(s, Chars(b, room)) ==
            if b[0] < 32 || b[0] == ESCAPE || room == 0 then None else Prepend(s + [b[0]], Chars(b[1..], room - 1))
  {
    if b[0] >= 32 && b[0] != ESCAPE && room > 0 && Chars(b[1..], room - 1).Some? {
      var t := Chars(b[1..], room - 1).value.0;
      assert s + ([b[0]] + t) == s + [b[0]] + t;
    }
  }

  /** Skipping blanks twice is skipping them once, so a failed attempt at one token does not hurt the next. */
  lemma SkipTwice(b: Bytes)
    ensures SkipWs(SkipWs(b)) == SkipWs(b)
    ensures forall c :: Take(SkipWs(b), c) == Take(b, c)
  {
  }

  lemma FieldsProgress(b: Bytes, r: Rule, seen: set<nat>, last: nat)
    ensures ReadFields(b, r, seen, last) ==
            var s := ReadString(b, FIELD_MAX);
            if s.None? then None
            else
              var t := Take(s.value.1, COLON);
              var f := FieldOf(s.value.0);
              if t.None? || f.None? || f.value > last || f.value in seen then None
              else
                var n := ReadNumber(t.value, FieldMax(f.value));
                if n.None? then None
                else FieldsAfter(Next(n.value.1, RBRACE), FieldSet(r, f.value, n.value.0), seen + {f.value}, last)
  {
  }

  lemma PrependNothing(r: Option<(Bytes, Bytes)>)
    ensures Prepend([], r) == r
  {
    if r.Some? {
      assert [] + r.value.0 == r.value.0;
    }
  }

  lemma ItemsSkip(kind: Kind, b: Bytes, sofar: seq<Item>)
    ensures ReadItems(kind, SkipWs(b), sofar) == ReadItems(kind, b, sofar)
  {
    SkipTwice(b);
    assert ReadItem(kind, SkipWs(b)) == ReadItem(kind, b) by {
      hide ReadFields, Digits;
    }
    hide ReadItem, Next;
  }

  lemma ItemsProgress(kind: Kind, b: Bytes, sofar: seq<Item>)
    requires |sofar| < Capacity(kind)
    ensures ReadItems(kind, b, sofar) ==
            var x := ReadItem(kind, b);
            if x.None? then None
            else
              var q := Next(x.value.1, RBRACKET);
              if q.Bad? then None
              else if q.End? then Some((sofar + [x.value.0], q.rest))
              else ReadItems(kind, q.rest, sofar + [x.value.0])
  {
    hide ReadItem, Next;
  }

  lemma MembersProgress(b: Bytes, c: Config, seen: set<nat>)
    ensures ReadMembers(b, c, seen) ==
            var s := ReadString(b, KEY_MAX);
            if s.None? then None
            else
              var t, f := Take(s.value.1, COLON), KeyFrom(s.value.0, 0);
              if t.None? || f.None? || f.value in seen then None
              else
                var v := ReadValue(f.value, t.value, c, seen + {f.value});
                if v.None? then None else MembersAfter(v.value.1, v.value.0, seen + {f.value})
  {
    hide ReadString, Take, KeyFrom, ReadValue, Next;
  }
}
