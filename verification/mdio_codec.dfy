/**
 Whole configuration files: the reader accepts members in any order, the printer writes them in
 one, and reading what was printed gives back the configuration.
 */
module MdioCodec {
  import opened Words
  import opened Statuses
  import opened Tokens
  import opened MdioConfig
  import opened MdioGrammar

  const NAME := 0
  const PHY_ADDR := 1
  const REG_COUNT := 2
  const POLICY := 3
  const AUTOPOLL := 4
  const REG_DELAY := 5
  const CYCLE_DELAY := 6
  const AUTOPOLL_REGS := 7
  const WHITELIST := 8
  const BLACKLIST := 9
  const SETTINGS := 10
  const ALLOW_REGS := 11
  const DENY_REGS := 12
  const KEYS := 13

  /** The smallest set of members a file must have. */
  const REQUIRED: set<nat> := {NAME, PHY_ADDR, REG_COUNT, POLICY}

  function KeyName(k: nat): string {
    match k
    case 0 => "name"
    case 1 => "phy_addr"
    case 2 => "reg_count"
    case 3 => "policy"
    case 4 => "autopoll_enabled"
    case 5 => "autopoll_reg_delay_ms"
    case 6 => "autopoll_cycle_delay_ms"
    case 7 => "autopoll_regs"
    case 8 => "whitelist"
    case 9 => "blacklist"
    case 10 => "settings"
    case 11 => "write_allow_regs"
    case _ => "write_deny_regs"
  }

  predicate LowerCase(s: string) { forall i :: 0 <= i < |s| ==> 'a' <= s[i] <= 'z' || s[i] == '_' }

  function KeyLength(k: nat): nat {
    if k == 0 then 4 else if k == 1 || k == 10 then 8 else if k == 2 || k == 8 || k == 9 then 9 else if k == 3 then 6
    else if k == 4 || k == 11 then 16 else if k == 5 then 21 else if k == 6 then 23 else if k == 7 then 13 else 15
  }

  function KeyInitial(k: nat): char {
    if k == 0 then 'n' else if k == 1 || k == 3 then 'p' else if k == 2 then 'r' else if k == 8 || k >= 11 then 'w'
    else if k == 9 then 'b' else if k == 10 then 's' else 'a'
  }

  lemma KeySize(k: nat)
    requires k < KEYS
    ensures |KeyName(k)| == KeyLength(k) && KeyName(k)[0] == KeyInitial(k)
  {
  }

  lemma ShortKeys(k: nat)
    requires k < 4 || 8 <= k < 11
    ensures LowerCase(KeyName(k))
  {
  }

  lemma MiddleKeys(k: nat)
    requires k == 7 || k == 11 || k == 12
    ensures LowerCase(KeyName(k))
  {
  }

  lemma LongKeys(k: nat)
    requires 4 <= k < 7
    ensures LowerCase(KeyName(k))
  {
  }

  lemma KeyShape(k: nat)
    requires k < KEYS
    ensures LowerCase(KeyName(k)) && |KeyName(k)| == KeyLength(k) && KeyName(k)[0] == KeyInitial(k)
  {
    hide KeyName, LowerCase;
    KeySize(k);
    if k < 4 || 8 <= k < 11 {
      ShortKeys(k);
    } else if k < 7 {
      LongKeys(k);
    } else {
      MiddleKeys(k);
    }
  }

  function KeyText(k: nat): Bytes
    requires k < KEYS
  {
    KeyShape(k);
    Text(KeyName(k))
  }

  function KeyFrom(key: Bytes, k: nat): (r: Option<nat>)
    requires k <= KEYS
    ensures r.Some? ==> k <= r.value < KEYS
    decreases KEYS - k
  {
    if k == KEYS then None else if key == KeyText(k) then Some(k) else KeyFrom(key, k + 1)
  }

  lemma KeysDiffer(i: nat, j: nat)
    requires i < j < KEYS
    ensures KeyText(i) != KeyText(j)
  {
    hide KeyName, Text;
    KeyShape(i);
    KeyShape(j);
    TextDistinct(KeyName(i), KeyName(j));
  }

  lemma WordsPlain(s: string)
    requires LowerCase(s)
    ensures Plain(Text(s))
  {
  }

  lemma KeysPlain(k: nat)
    requires k < KEYS
    ensures Plain(KeyText(k)) && |KeyText(k)| < KEY_MAX
  {
    hide KeyName, Text;
    KeyShape(k);
    WordsPlain(KeyName(k));
  }

  lemma {:induction false} KeyFromOf(k: nat, i: nat)
    requires i <= k < KEYS
    ensures KeyFrom(KeyText(k), i) == Some(k)
    decreases k - i
  {
    hide KeyText;
    if i < k {
      KeysDiffer(i, k);
      KeyFromOf(k, i + 1);
    }
  }

  const START := Config([], 0, 0, Whitelist, false, [], 0, 50, [], [], [])

  // ----- Values

  function RulesIn(xs: seq<Item>): (r: seq<Rule>)
    ensures |r| <= |xs|
  {
    if xs == [] then [] else (if xs[0].ARule? then [xs[0].rule] else []) + RulesIn(xs[1..])
  }

  function SettingsIn(xs: seq<Item>): (r: seq<Setting>)
    ensures |r| <= |xs|
  {
    if xs == [] then [] else (if xs[0].ASetting? then [xs[0].setting] else []) + SettingsIn(xs[1..])
  }

  function RegistersIn(xs: seq<Item>): (r: seq<u8>)
    ensures |r| <= |xs|
  {
    if xs == [] then [] else (if xs[0].ARegister? then [xs[0].reg] else []) + RegistersIn(xs[1..])
  }

  function StartsWith(b: Bytes, word: Bytes): Option<Bytes> {
    var w := SkipWs(b);
    if |w| >= |word| && w[..|word|] == word then Some(w[|word|..]) else None
  }

  function ReadFlag(b: Bytes): (r: Option<(bool, Bytes)>)
    ensures r.Some? ==> |r.value.1| < |b|
  {
    match StartsWith(b, Text("true"))
    case Some(rest) => Some((true, rest))
    case None =>
      match StartsWith(b, Text("false"))
      case Some(rest) => Some((false, rest))
      case None => None
  }

  function PolicyName(policy: Policy): string { if policy == Whitelist then "whitelist" else "blacklist" }

  lemma PolicyNames(policy: Policy)
    ensures LowerCase(PolicyName(policy)) && |PolicyName(policy)| == 9
    ensures PolicyName(Whitelist) != PolicyName(Blacklist)
  {
    assert PolicyName(Whitelist)[0] != PolicyName(Blacklist)[0];
  }

  function PolicyText(policy: Policy): Bytes {
    PolicyNames(policy);
    Text(PolicyName(policy))
  }

  function ReadPolicy(b: Bytes): (r: Option<(Policy, Bytes)>)
    ensures r.Some? ==> |r.value.1| < |b|
  {
    match ReadString(b, KEY_MAX)
    case None => None
    case Some((s, rest)) =>
      if s == PolicyText(Whitelist) then Some((Whitelist, rest))
      else if s == PolicyText(Blacklist) then Some((Blacklist, rest))
      else None
  }

  function NumberMax(k: nat): nat { if k == PHY_ADDR then 31 else if k == REG_COUNT then 32 else 600000 }

  /** The value of member `k`, put into the configuration; `seen` are the members met so far, this one included. */
  function ReadValue(k: nat, b: Bytes, c: Config, seen: set<nat>): (r: Option<(Config, Bytes)>)
    ensures r.Some? ==> |r.value.1| < |b|
  {
    if k == NAME then
      match ReadString(b, NAME_MAX)
      case None => None
      case Some((s, rest)) => Some((c.(name := s), rest))
    else if k == POLICY then
      match ReadPolicy(b)
      case None => None
      case Some((p, rest)) => Some((c.(policy := p), rest))
    else if k == AUTOPOLL then
      match ReadFlag(b)
      case None => None
      case Some((f, rest)) => Some((c.(autopoll := f), rest))
    else if k == AUTOPOLL_REGS then
      match ReadList(Registers, b)
      case None => None
      case Some((xs, rest)) => Some((c.(autopollRegs := RegistersIn(xs)), rest))
    else if k == WHITELIST || k == ALLOW_REGS then
      if {WHITELIST, ALLOW_REGS} <= seen then None
      else
        match ReadList(if k == ALLOW_REGS then LegacyRules else Rules, b)
        case None => None
        case Some((xs, rest)) => Some((c.(whitelist := RulesIn(xs)), rest))
    else if k == BLACKLIST || k == DENY_REGS then
      if {BLACKLIST, DENY_REGS} <= seen then None
      else
        match ReadList(if k == DENY_REGS then LegacyRules else Rules, b)
        case None => None
        case Some((xs, rest)) => Some((c.(blacklist := RulesIn(xs)), rest))
    else if k == SETTINGS then
      match ReadList(Settings, b)
      case None => None
      case Some((xs, rest)) => Some((c.(settings := SettingsIn(xs)), rest))
    else
      match ReadNumber(b, NumberMax(k))
      case None => None
      case Some((v, rest)) =>
        Some((if k == PHY_ADDR then c.(phyAddr := v) else if k == REG_COUNT then c.(regCount := v)
              else if k == REG_DELAY then c.(regDelay := v) else c.(cycleDelay := v), rest))
  }

  /** Members up to the closing brace, each key at most once. */
  function ReadMembers(b: Bytes, c: Config, seen: set<nat>): (r: Option<(Config, set<nat>, Bytes)>)
    ensures r.Some? ==> |r.value.2| < |b|
    decreases |b|
  {
    match ReadString(b, KEY_MAX)
    case None => None
    case Some((key, b1)) =>
      match Take(b1, COLON)
      case None => None
      case Some(b2) =>
        match KeyFrom(key, 0)
        case None => None
        case Some(k) =>
          if k in seen then None
          else
            match ReadValue(k, b2, c, seen + {k})
            case None => None
            case Some((d, b3)) => MembersAfter(b3, d, seen + {k})
  }

  function MembersAfter(b: Bytes, c: Config, seen: set<nat>): (r: Option<(Config, set<nat>, Bytes)>)
    ensures r.Some? ==> |r.value.2| < |b|
    decreases |b|
  {
    var q := Next(b, RBRACE);
    if q.Bad? then None else if q.End? then Some((c, seen, q.rest)) else ReadMembers(q.rest, c, seen)
  }

  /** A whole file: one object, nothing behind it, the required members, and a valid configuration. */
  function ParseConfig(b: Bytes): Option<Config> {
    match Take(b, LBRACE)
    case None => None
    case Some(inner) =>
      match ReadMembers(inner, START, {})
      case None => None
      case Some((c, seen, rest)) =>
        if SkipWs(rest) == [] && REQUIRED <= seen && Validate(c) == Ok then Some(c) else None
  }

  // ----- The printer

  function RuleItems(rules: seq<Rule>): (xs: seq<Item>)
    ensures |xs| == |rules| && RulesIn(xs) == rules && forall i :: 0 <= i < |xs| ==> xs[i] == ARule(rules[i])
  {
    if rules == [] then [] else [ARule(rules[0])] + RuleItems(rules[1..])
  }

  function SettingItems(settings: seq<Setting>): (xs: seq<Item>)
    ensures |xs| == |settings| && SettingsIn(xs) == settings && forall i :: 0 <= i < |xs| ==> xs[i] == ASetting(settings[i])
  {
    if settings == [] then [] else [ASetting(settings[0])] + SettingItems(settings[1..])
  }

  function RegisterItems(regs: seq<u8>): (xs: seq<Item>)
    ensures |xs| == |regs| && RegistersIn(xs) == regs && forall i :: 0 <= i < |xs| ==> xs[i] == ARegister(regs[i])
  {
    if regs == [] then [] else [ARegister(regs[0])] + RegisterItems(regs[1..])
  }

  function ShowValue(c: Config, k: nat): Bytes {
    if k == NAME then Quoted(c.name)
    else if k == PHY_ADDR then Decimal(c.phyAddr)
    else if k == REG_COUNT then Decimal(c.regCount)
    else if k == POLICY then Quoted(PolicyText(c.policy))
    else if k == AUTOPOLL then (if c.autopoll then Text("true") else Text("false"))
    else if k == REG_DELAY then Decimal(c.regDelay)
    else if k == CYCLE_DELAY then Decimal(c.cycleDelay)
    else if k == AUTOPOLL_REGS then ShowList(RegisterItems(c.autopollRegs))
    else if k == WHITELIST then ShowList(RuleItems(c.whitelist))
    else if k == BLACKLIST then ShowList(RuleItems(c.blacklist))
    else ShowList(SettingItems(c.settings))
  }

  function ShowMember(c: Config, k: nat): Bytes
    requires k < KEYS
  {
    Quoted(KeyText(k)) + [COLON, BLANK] + ShowValue(c, k)
  }

  const SEPARATOR: Bytes := [COMMA, NEWLINE, BLANK, BLANK]
  const CLOSING: Bytes := [NEWLINE, RBRACE, NEWLINE]

  function ShowFrom(c: Config, k: nat): Bytes
    requires k <= SETTINGS
    decreases SETTINGS - k
  {
    ShowMember(c, k) + if k == SETTINGS then CLOSING else SEPARATOR + ShowFrom(c, k + 1)
  }

  function FormatConfig(c: Config): Bytes { [LBRACE, NEWLINE, BLANK, BLANK] + ShowFrom(c, 0) }

  // ----- The reader undoes the printer

  /** `acc` with member `k` taken from `c`. */
  function With(acc: Config, c: Config, k: nat): Config {
    if k == NAME then acc.(name := c.name)
    else if k == PHY_ADDR then acc.(phyAddr := c.phyAddr)
    else if k == REG_COUNT then acc.(regCount := c.regCount)
    else if k == POLICY then acc.(policy := c.policy)
    else if k == AUTOPOLL then acc.(autopoll := c.autopoll)
    else if k == REG_DELAY then acc.(regDelay := c.regDelay)
    else if k == CYCLE_DELAY then acc.(cycleDelay := c.cycleDelay)
    else if k == AUTOPOLL_REGS then acc.(autopollRegs := c.autopollRegs)
    else if k == WHITELIST then acc.(whitelist := c.whitelist)
    else if k == BLACKLIST then acc.(blacklist := c.blacklist)
    else acc.(settings := c.settings)
  }

  /** The members read so far, the first `k` in printing order. */
  function Partial(c: Config, k: nat): Config { if k == 0 then START else With(Partial(c, k - 1), c, k - 1) }

  lemma PartialWhole(c: Config)
    ensures Partial(c, SETTINGS + 1) == c
  {
    hide Partial;
    PartialStep(c, 0);
    PartialStep(c, 1);
    PartialStep(c, 2);
    PartialStep(c, 3);
    PartialStep(c, 4);
    PartialStep(c, 5);
    PartialStep(c, 6);
    PartialStep(c, 7);
    PartialStep(c, 8);
    PartialStep(c, 9);
    PartialStep(c, 10);
  }

  lemma PartialStep(c: Config, k: nat)
    ensures Partial(c, k + 1) == With(Partial(c, k), c, k) && Partial(c, 0) == START
  {
  }

  function Upto(k: nat): (s: set<nat>)
    ensures forall i: nat :: i in s <==> i < k
  {
    if k == 0 then {} else Upto(k - 1) + {k - 1}
  }

  predicate Closes(rest: Bytes) { rest != [] && (rest[0] == COMMA || rest[0] == NEWLINE) }

  lemma NamePlain(name: Bytes)
    requires SafeName(name)
    ensures Plain(name) && |name| < NAME_MAX
  {
  }

  lemma WordRead(word: Bytes, rest: Bytes)
    requires word != [] && !Space(word[0])
    ensures StartsWith([BLANK] + (word + rest), word) == Some(rest)
  {
    SkipOne(BLANK, word + rest);
    assert SkipWs(word + rest) == word + rest;
  }

  lemma FlagRead(flag: bool, rest: Bytes)
    ensures ReadFlag([BLANK] + ((if flag then Text("true") else Text("false")) + rest)) == Some((flag, rest))
  {
    if flag {
      WordRead(Text("true"), rest);
    } else {
      WordRead(Text("false"), rest);
      SkipOne(BLANK, Text("false") + rest);
      assert SkipWs(Text("false") + rest) == Text("false") + rest;
      assert (Text("false") + rest)[..4][0] != Text("true")[0];
    }
  }

  lemma PolicyRead(policy: Policy, rest: Bytes)
    ensures ReadPolicy([BLANK] + (Quoted(PolicyText(policy)) + rest)) == Some((policy, rest))
  {
    hide Text, ReadString, PolicyName, Quoted;
    PolicyNames(policy);
    PolicyNames(Whitelist);
    PolicyNames(Blacklist);
    WordsPlain(PolicyName(policy));
    TextDistinct(PolicyName(Whitelist), PolicyName(Blacklist));
    BlankAhead(Quoted(PolicyText(policy)) + rest, KEY_MAX, 0);
    ReadStringOf(PolicyText(policy), KEY_MAX, rest);
  }

  lemma ListRead(kind: Kind, xs: seq<Item>, rest: Bytes)
    requires |xs| <= Capacity(kind) && forall i :: 0 <= i < |xs| ==> Belongs(kind, xs[i])
    ensures ReadList(kind, [BLANK] + (ShowList(xs) + rest)) == Some((xs, rest))
  {
    hide ReadItems, ShowItems, ShowList;
    BlankAhead(ShowList(xs) + rest, 1, 0);
    ReadListOf(kind, xs, rest);
  }

  lemma NumberRead(n: nat, max: nat, rest: Bytes)
    requires n <= max && Closes(rest)
    ensures ReadNumber([BLANK] + (Decimal(n) + rest), max) == Some((n, rest))
  {
    hide ReadNumber, Decimal;
    BlankAhead(Decimal(n) + rest, 1, max);
    ReadNumberOf(n, max, rest);
  }

  /** Every printed value is read back into its place. */
  lemma ValueRead(c: Config, k: nat, acc: Config, seen: set<nat>, rest: Bytes)
    requires Valid(c) && k <= SETTINGS && Closes(rest) && ALLOW_REGS !in seen && DENY_REGS !in seen
    ensures ReadValue(k, [BLANK] + (ShowValue(c, k) + rest), acc, seen) == Some((With(acc, c, k), rest))
  {
    hide ReadString, ReadNumber, ReadPolicy, ReadFlag, ReadList, ShowList, Decimal, Quoted, Text, RulesIn, SettingsIn, RegistersIn,
      SafeName, Distinct;
    if k == NAME {
      NamePlain(c.name);
      BlankAhead(Quoted(c.name) + rest, NAME_MAX, 0);
      ReadStringOf(c.name, NAME_MAX, rest);
    } else if k == PHY_ADDR {
      NumberRead(c.phyAddr, 31, rest);
    } else if k == REG_COUNT {
      NumberRead(c.regCount, 32, rest);
    } else if k == POLICY {
      PolicyRead(c.policy, rest);
    } else if k == AUTOPOLL {
      FlagRead(c.autopoll, rest);
    } else if k == REG_DELAY {
      NumberRead(c.regDelay, 600000, rest);
    } else if k == CYCLE_DELAY {
      NumberRead(c.cycleDelay, 600000, rest);
    } else if k == AUTOPOLL_REGS {
      ListRead(Registers, RegisterItems(c.autopollRegs), rest);
    } else if k == WHITELIST {
      ListRead(Rules, RuleItems(c.whitelist), rest);
    } else if k == BLACKLIST {
      ListRead(Rules, RuleItems(c.blacklist), rest);
    } else {
      ListRead(Settings, SettingItems(c.settings), rest);
    }
  }

  lemma MemberRead(c: Config, k: nat, acc: Config, seen: set<nat>, rest: Bytes)
    requires Valid(c) && k <= SETTINGS && k !in seen && Closes(rest) && ALLOW_REGS !in seen && DENY_REGS !in seen
    ensures ReadMembers(ShowMember(c, k) + rest, acc, seen) == MembersAfter(rest, With(acc, c, k), seen + {k})
  {
    hide ReadString, Take, ReadValue, MembersAfter, KeyText, KeyFrom, ShowValue, Quoted, MdioConfig.Valid, With;
    var value := [BLANK] + (ShowValue(c, k) + rest);
    var b := ShowMember(c, k) + rest;
    assert b == Quoted(KeyText(k)) + ([COLON] + value);
    KeysPlain(k);
    ReadStringOf(KeyText(k), KEY_MAX, [COLON] + value);
    TakeOf(COLON, value, [COLON] + value);
    KeyFromOf(k, 0);
    ValueRead(c, k, acc, seen + {k}, rest);
  }

  lemma ShowFromStarts(c: Config, k: nat)
    requires k <= SETTINGS
    ensures ShowFrom(c, k) != [] && ShowFrom(c, k)[0] == QUOTE
  {
  }

  lemma {:induction false} MembersRead(c: Config, k: nat)
    requires Valid(c) && k <= SETTINGS
    ensures ReadMembers(ShowFrom(c, k), Partial(c, k), Upto(k)) == Some((Partial(c, SETTINGS + 1), Upto(SETTINGS + 1), [NEWLINE]))
    decreases SETTINGS - k
  {
    hide ReadMembers, ShowMember, Next, With, MdioConfig.Valid;
    assert Upto(k + 1) == Upto(k) + {k} && Partial(c, k + 1) == With(Partial(c, k), c, k);
    if k == SETTINGS {
      MemberRead(c, k, Partial(c, k), Upto(k), CLOSING);
      assert CLOSING == [NEWLINE, RBRACE] + [NEWLINE];
      NextEnd([NEWLINE], RBRACE, CLOSING);
    } else {
      var tail := ShowFrom(c, k + 1);
      MemberRead(c, k, Partial(c, k), Upto(k), SEPARATOR + tail);
      ShowFromStarts(c, k + 1);
      NextMore(tail, RBRACE, SEPARATOR + tail);
      MembersRead(c, k + 1);
    }
  }

  lemma MembersSkip(b: Bytes, c: Config, seen: set<nat>)
    ensures ReadMembers([NEWLINE, BLANK, BLANK] + b, c, seen) == ReadMembers(b, c, seen)
  {
    hide ReadValue, MembersAfter, KeyFrom, Chars;
    assert [NEWLINE, BLANK, BLANK] + b == [NEWLINE] + ([BLANK] + ([BLANK] + b));
    SkipOne(NEWLINE, [BLANK] + ([BLANK] + b));
    SkipOne(BLANK, [BLANK] + b);
    SkipOne(BLANK, b);
  }

  /** Reading back a printed configuration gives exactly the configuration, for every valid one. */
  lemma ParseUndoesFormat(c: Config)
    requires Valid(c)
    ensures ParseConfig(FormatConfig(c)) == Some(c)
  {
    hide ReadMembers, ShowFrom, MdioConfig.Valid, Validate, Partial;
    var inner := [NEWLINE, BLANK, BLANK] + ShowFrom(c, 0);
    assert FormatConfig(c) == [LBRACE] + inner;
    TakeOf(LBRACE, inner, FormatConfig(c));
    MembersSkip(ShowFrom(c, 0), START, {});
    assert Partial(c, 0) == START && Upto(0) == {} by { PartialNone(c); }
    MembersRead(c, 0);
    PartialWhole(c);
    ValidateIs(c);
    assert REQUIRED <= Upto(SETTINGS + 1);
  }

  lemma PartialNone(c: Config)
    ensures Partial(c, 0) == START && Upto(0) == {}
  {
  }

  /** Whatever is accepted is valid: nothing a caller has to check again. */
  lemma AcceptedIsValid(b: Bytes)
    requires ParseConfig(b).Some?
    ensures Valid(ParseConfig(b).value)
  {
    ValidateIs(ParseConfig(b).value);
  }

  /** A configuration once accepted survives being printed and read again. */
  lemma FormatIsStable(b: Bytes)
    requires ParseConfig(b).Some?
    ensures ParseConfig(FormatConfig(ParseConfig(b).value)) == ParseConfig(b)
  {
    AcceptedIsValid(b);
    ParseUndoesFormat(ParseConfig(b).value);
  }
}
