/**
 An MDIO configuration file of either format: the version gate, then the reader it selects. Every printed
 configuration passes the gate, and a file read in the older format can be kept in the newer one.
 */
module MdioFile {
  import opened Words
  import opened Statuses
  import opened Tokens
  import opened JsonText
  import opened JsonDocs
  import opened JsonTables
  import opened ProfileModel
  import opened ProfileParser
  import opened ProfilePrinter
  import opened ProfileCodec
  import opened ProfileRoundTrip
  import opened SchemaProbe
  import MdioConfig
  import MdioGrammar
  import MdioCodec
  import MdioReader
  import ProfileReader

  /** A configuration of the older format has no metadata. */
  function FromLegacy(c: MdioConfig.Config): Profile {
    Profile(true, c.name, c.phyAddr, c.regCount, 0, c.autopoll, c.autopollRegs, c.regDelay, c.cycleDelay, c.policy == MdioConfig.Blacklist,
            c.whitelist, c.blacklist, c.settings, Meta(LEGACY, [], [], [], [], [], [], []))
  }

  function ParseFile(json: Bytes): R<Profile> {
    hide ParseProfile, Probe, MdioCodec.ParseConfig;
    var version :- Probe(json);
    if version == MODERN then ParseProfile(json, true)
    else
      match MdioCodec.ParseConfig(json)
      case None => Fail(Malformed)
      case Some(c) => Good(FromLegacy(c))
  }

  /** The gate, then the reader it selects. */
  method Read(json: Bytes) returns (r: R<Profile>)
    ensures r == ParseFile(json)
  {
    hide ParseProfile, Probe, MdioCodec.ParseConfig;
    var version :- ProfileReader.Version(json);
    if version == MODERN {
      r := ProfileReader.Parse(json, true);
    } else {
      var c := MdioReader.Parse(json);
      r := if c == None then Fail(Malformed) else Good(FromLegacy(c.value));
    }
  }

  // ----- The older text as a document

  function FieldEntry(bit: nat, v: nat): Entry { Entry(MdioGrammar.FieldKey(bit), Number(v)) }

  function RuleEntries(r: Rule): seq<Entry> {
    [FieldEntry(MdioGrammar.REG, r.reg), FieldEntry(MdioGrammar.VAL, r.val), FieldEntry(MdioGrammar.MASK, r.mask)]
  }

  function SettingEntries(s: Setting): seq<Entry> { [FieldEntry(MdioGrammar.REG, s.reg), FieldEntry(MdioGrammar.VAL, s.val)] }

  function Braced(es: seq<Entry>): Doc { Group(true, es, [], [BLANK], []) }

  function ItemDoc(x: MdioGrammar.Item): Doc {
    match x
    case ARule(r) => Braced(RuleEntries(r))
    case ASetting(s) => Braced(SettingEntries(s))
    case ARegister(v) => Number(v)
  }

  function ItemDocs(xs: seq<MdioGrammar.Item>): (ds: seq<Doc>)
    ensures |ds| == |xs| && forall i :: 0 <= i < |ds| ==> ds[i] == ItemDoc(xs[i])
  {
    if xs == [] then [] else [ItemDoc(xs[0])] + ItemDocs(xs[1..])
  }

  function MemberDoc(c: MdioConfig.Config, k: nat): Doc {
    if k == MdioCodec.NAME then Word(c.name)
    else if k == MdioCodec.PHY_ADDR then Number(c.phyAddr)
    else if k == MdioCodec.REG_COUNT then Number(c.regCount)
    else if k == MdioCodec.POLICY then Word(MdioCodec.PolicyText(c.policy))
    else if k == MdioCodec.AUTOPOLL then Flag(c.autopoll)
    else if k == MdioCodec.REG_DELAY then Number(c.regDelay)
    else if k == MdioCodec.CYCLE_DELAY then Number(c.cycleDelay)
    else Brackets(Items(ItemDocs(MemberItems(c, k))))
  }

  function MemberItems(c: MdioConfig.Config, k: nat): seq<MdioGrammar.Item> {
    if k == MdioCodec.AUTOPOLL_REGS then MdioCodec.RegisterItems(c.autopollRegs)
    else if k == MdioCodec.WHITELIST then MdioCodec.RuleItems(c.whitelist)
    else if k == MdioCodec.BLACKLIST then MdioCodec.RuleItems(c.blacklist)
    else MdioCodec.SettingItems(c.settings)
  }

  /** The members from the `k`-th on. */
  function MembersFrom(c: MdioConfig.Config, k: nat): (es: seq<Entry>)
    requires k <= MdioCodec.SETTINGS + 1
    ensures |es| == MdioCodec.SETTINGS + 1 - k
    decreases MdioCodec.SETTINGS + 1 - k
  {
    if k > MdioCodec.SETTINGS then [] else [Entry(MdioCodec.KeyText(k), MemberDoc(c, k))] + MembersFrom(c, k + 1)
  }

  function FileDoc(c: MdioConfig.Config): Doc { Group(true, MembersFrom(c, 0), LINE2, LINE2, LINE) }

  // ----- The document is the text

  lemma {:induction false} PlainQuoted(s: Bytes)
    requires MdioGrammar.Plain(s)
    ensures QuotedChars(s) == s && Quoted(s) == MdioGrammar.Quoted(s)
  {
    if s != [] {
      PlainQuoted(s[1..]);
      assert [s[0]] + s[1..] == s;
    }
  }

  lemma FieldShown(bit: nat, v: nat)
    requires bit <= MdioGrammar.MASK
    ensures ShowEntry(true, FieldEntry(bit, v)) == MdioGrammar.ShowField(bit, v)
  {
    hide MdioGrammar.FieldKey, Decimal, QuotedChars, Quoted, MdioGrammar.Quoted, MdioGrammar.FieldOf;
    MdioGrammar.FieldKeys();
    PlainQuoted(MdioGrammar.FieldKey(bit));
  }

  lemma RuleShown(r: Rule)
    ensures Show(Braced(RuleEntries(r))) == MdioGrammar.ShowRule(r)
  {
    hide ShowEntry, MdioGrammar.ShowField, FieldEntry;
    FieldShown(MdioGrammar.REG, r.reg);
    FieldShown(MdioGrammar.VAL, r.val);
    FieldShown(MdioGrammar.MASK, r.mask);
    var es := RuleEntries(r);
    assert es[1..][0] == es[1] && es[1..][1..] == [es[2]] && [es[2]][1..] == [];
    var third := ShowEntry(true, es[2]) + [RBRACE];
    assert ShowRest(true, [es[2]], [BLANK], []) == [COMMA] + ([BLANK] + third);
    var second := ShowEntry(true, es[1]) + ([COMMA, BLANK] + third);
    assert ShowRest(true, es[1..], [BLANK], []) == [COMMA] + ([BLANK] + second);
  }

  lemma SettingShown(s: Setting)
    ensures Show(Braced(SettingEntries(s))) == MdioGrammar.ShowSetting(s)
  {
    hide ShowEntry, MdioGrammar.ShowField, FieldEntry;
    FieldShown(MdioGrammar.REG, s.reg);
    FieldShown(MdioGrammar.VAL, s.val);
    var es := SettingEntries(s);
    assert es[1..] == [es[1]] && [es[1]][1..] == [];
    var second := ShowEntry(true, es[1]) + [RBRACE];
    assert ShowRest(true, [es[1]], [BLANK], []) == [COMMA] + ([BLANK] + second);
  }

  lemma ItemShown(x: MdioGrammar.Item)
    ensures Show(ItemDoc(x)) == MdioGrammar.ShowItem(x)
  {
    hide Braced, MdioGrammar.ShowRule, MdioGrammar.ShowSetting, RuleEntries, SettingEntries, Decimal;
    match x
    case ARule(r) => RuleShown(r);
    case ASetting(s) => SettingShown(s);
    case ARegister(v) =>
  }

  lemma RestStep(es: seq<Entry>)
    ensures es == [] ==> ShowRest(false, es, [BLANK], []) == [RBRACKET]
    ensures es != [] ==>
              ShowRest(false, es, [BLANK], []) == [COMMA] + ([BLANK] + (ShowEntry(false, es[0]) + ShowRest(false, es[1..], [BLANK], [])))
  {
    hide ShowEntry;
  }

  lemma ItemsStep(xs: seq<MdioGrammar.Item>)
    requires xs != []
    ensures MdioGrammar.ShowItems(xs) == MdioGrammar.ShowItem(xs[0]) + if |xs| > 1 then [COMMA, BLANK] + MdioGrammar.ShowItems(xs[1..]) else []
    ensures var es := Items(ItemDocs(xs));
      |es| == |xs| && es[0] == Entry([], ItemDoc(xs[0])) && es[1..] == Items(ItemDocs(xs[1..])) && |ItemDocs(xs[1..])| == |xs| - 1
  {
    hide MdioGrammar.ShowItem, ItemDoc;
  }

  lemma {:induction false} ItemsShown(xs: seq<MdioGrammar.Item>)
    requires xs != []
    ensures |Items(ItemDocs(xs))| == |xs|
    ensures ShowEntry(false, Items(ItemDocs(xs))[0]) + ShowRest(false, Items(ItemDocs(xs))[1..], [BLANK], []) ==
            MdioGrammar.ShowItems(xs) + [RBRACKET]
  {
    hide MdioGrammar.ShowItem, ItemDoc, MdioGrammar.ShowItems, Show, ShowRest, ItemDocs;
    var es := Items(ItemDocs(xs));
    ItemsStep(xs);
    ItemShown(xs[0]);
    assert ShowEntry(false, es[0]) == MdioGrammar.ShowItem(xs[0]);
    RestStep(es[1..]);
    if |xs| > 1 {
      ItemsShown(xs[1..]);
    }
  }

  lemma ListShown(xs: seq<MdioGrammar.Item>)
    ensures Show(Brackets(Items(ItemDocs(xs)))) == MdioGrammar.ShowList(xs)
  {
    hide MdioGrammar.ShowItem, ItemDoc, ShowEntry, ShowRest;
    if xs != [] {
      hide MdioGrammar.ShowItems, Items, ItemDocs;
      ItemsShown(xs);
    }
  }

  lemma MemberShown(c: MdioConfig.Config, k: nat)
    requires MdioConfig.Valid(c) && k <= MdioCodec.SETTINGS
    ensures Show(MemberDoc(c, k)) == MdioCodec.ShowValue(c, k)
  {
    hide MdioGrammar.ShowList, Items, ItemDocs, Decimal, Quoted, MdioGrammar.Quoted, MdioCodec.PolicyText, Brackets, Text, MdioConfig.SafeName;
    if k == MdioCodec.NAME {
      MdioCodec.NamePlain(c.name);
      PlainQuoted(c.name);
    } else if k == MdioCodec.POLICY {
      PolicyPlain(c.policy);
      PlainQuoted(MdioCodec.PolicyText(c.policy));
    } else {
      ListShown(MemberItems(c, k));
    }
  }

  lemma PolicyPlain(policy: MdioConfig.Policy)
    ensures MdioGrammar.Plain(MdioCodec.PolicyText(policy))
  {
    hide Text, MdioCodec.PolicyName;
    MdioCodec.PolicyNames(policy);
    MdioCodec.WordsPlain(MdioCodec.PolicyName(policy));
  }

  lemma MembersStep(c: MdioConfig.Config, k: nat)
    requires k <= MdioCodec.SETTINGS
    ensures MembersFrom(c, k) == [Entry(MdioCodec.KeyText(k), MemberDoc(c, k))] + MembersFrom(c, k + 1)
    ensures MembersFrom(c, MdioCodec.SETTINGS + 1) == []
  {
    hide MemberDoc, MdioCodec.KeyText;
  }

  lemma EntryShown(c: MdioConfig.Config, k: nat)
    requires MdioConfig.Valid(c) && k <= MdioCodec.SETTINGS
    ensures ShowEntry(true, Entry(MdioCodec.KeyText(k), MemberDoc(c, k))) == MdioCodec.ShowMember(c, k)
  {
    hide MemberDoc, MdioCodec.ShowValue, Show, MdioCodec.KeyText, QuotedChars, MdioConfig.Valid;
    MemberShown(c, k);
    MdioCodec.KeysPlain(k);
    PlainQuoted(MdioCodec.KeyText(k));
  }

  lemma ShownStep(c: MdioConfig.Config, k: nat)
    requires k <= MdioCodec.SETTINGS
    ensures MdioCodec.ShowFrom(c, k) ==
            MdioCodec.ShowMember(c, k) + if k == MdioCodec.SETTINGS then MdioCodec.CLOSING else MdioCodec.SEPARATOR + MdioCodec.ShowFrom(c, k + 1)
  {
    hide MdioCodec.ShowMember;
  }

  lemma RestIs(es: seq<Entry>, sep: Bytes, tail: Bytes)
    ensures ShowRest(true, es, sep, tail) ==
            if es == [] then tail + [RBRACE] else [COMMA] + (sep + (ShowEntry(true, es[0]) + ShowRest(true, es[1..], sep, tail)))
  {
    hide ShowEntry;
  }

  lemma LinesStep(es: seq<Entry>)
    ensures es == [] ==> ShowRest(true, es, LINE2, LINE) + LINE == MdioCodec.CLOSING
    ensures es != [] ==>
              ShowRest(true, es, LINE2, LINE) == MdioCodec.SEPARATOR + (ShowEntry(true, es[0]) + ShowRest(true, es[1..], LINE2, LINE))
  {
    hide ShowEntry, ShowRest;
    assert MdioCodec.SEPARATOR == [COMMA] + LINE2;
    if es != [] {
      var more := ShowRest(true, es[1..], LINE2, LINE);
      RestIs(es, LINE2, LINE);
      assert [COMMA] + (LINE2 + (ShowEntry(true, es[0]) + more)) == MdioCodec.SEPARATOR + (ShowEntry(true, es[0]) + more);
    } else {
      RestIs(es, LINE2, LINE);
    }
  }

  lemma {:induction false} MembersShown(c: MdioConfig.Config, k: nat)
    requires MdioConfig.Valid(c) && k <= MdioCodec.SETTINGS
    ensures ShowEntry(true, MembersFrom(c, k)[0]) + ShowRest(true, MembersFrom(c, k)[1..], LINE2, LINE) + LINE == MdioCodec.ShowFrom(c, k)
    decreases MdioCodec.SETTINGS - k
  {
    hide MembersFrom, MemberDoc, Show, ShowEntry, ShowRest, MdioCodec.ShowMember, MdioCodec.ShowFrom, MdioCodec.KeyText, MdioConfig.Valid;
    MembersStep(c, k);
    EntryShown(c, k);
    ShownStep(c, k);
    var others := MembersFrom(c, k + 1);
    assert MembersFrom(c, k)[1..] == others;
    LinesStep(others);
    if k < MdioCodec.SETTINGS {
      MembersStep(c, k + 1);
      MembersShown(c, k + 1);
    }
  }

  lemma FileShown(c: MdioConfig.Config)
    requires MdioConfig.Valid(c)
    ensures Show(FileDoc(c)) + LINE == MdioCodec.FormatConfig(c)
  {
    hide MembersFrom, ShowEntry, ShowRest, MdioCodec.ShowFrom, MdioConfig.Valid;
    MembersShown(c, 0);
    var es := MembersFrom(c, 0);
    assert Show(FileDoc(c)) == [LBRACE] + (LINE2 + (ShowEntry(true, es[0]) + ShowRest(true, es[1..], LINE2, LINE)));
  }

  // ----- It fits the gate

  lemma DecimalFits(n: nat)
    requires n < 1000000
    ensures |Decimal(n)| <= 6
  {
    hide Decimal;
    DecimalLast(n);
    DecimalLast(n / 10);
    DecimalLast(n / 10 / 10);
    DecimalLast(n / 10 / 10 / 10);
    DecimalLast(n / 10 / 10 / 10 / 10);
    DecimalLast(n / 10 / 10 / 10 / 10 / 10);
  }

  lemma FieldSize(bit: nat, v: nat)
    requires bit <= MdioGrammar.MASK && v < 1000000
    ensures |MdioGrammar.ShowField(bit, v)| <= 22
  {
    hide Decimal, MdioGrammar.FieldOf, MdioGrammar.FieldKey;
    MdioGrammar.FieldKeys();
    DecimalFits(v);
  }

  lemma ItemSize(x: MdioGrammar.Item)
    ensures |MdioGrammar.ShowItem(x)| <= 72
  {
    hide MdioGrammar.ShowField, Decimal;
    match x
    case ARule(r) =>
      FieldSize(MdioGrammar.REG, r.reg);
      FieldSize(MdioGrammar.VAL, r.val);
      FieldSize(MdioGrammar.MASK, r.mask);
    case ASetting(s) =>
      FieldSize(MdioGrammar.REG, s.reg);
      FieldSize(MdioGrammar.VAL, s.val);
    case ARegister(v) => DecimalFits(v);
  }

  lemma {:induction false} ItemsSize(xs: seq<MdioGrammar.Item>)
    ensures |MdioGrammar.ShowItems(xs)| <= 74 * |xs|
  {
    hide MdioGrammar.ShowItem;
    if xs != [] {
      ItemSize(xs[0]);
      ItemsSize(xs[1..]);
    }
  }

  lemma MemberSize(c: MdioConfig.Config, k: nat)
    requires MdioConfig.Valid(c) && k <= MdioCodec.SETTINGS
    ensures |MdioCodec.ShowMember(c, k)| <= 4800
  {
    hide MdioGrammar.ShowItems, Decimal, MdioCodec.PolicyName, Text, MdioConfig.SafeName, MdioCodec.KeyText, MdioConfig.Distinct;
    MdioCodec.KeysPlain(k);
    if k == MdioCodec.NAME {
      MdioCodec.NamePlain(c.name);
    } else if k == MdioCodec.POLICY {
      MdioCodec.PolicyNames(c.policy);
    } else if k == MdioCodec.AUTOPOLL {
      assert |Text("true")| == 4 && |Text("false")| == 5;
    } else if k >= MdioCodec.AUTOPOLL_REGS {
      ItemsSize(MemberItems(c, k));
    } else {
      DecimalFits(if k == MdioCodec.PHY_ADDR then c.phyAddr else if k == MdioCodec.REG_COUNT then c.regCount
                  else if k == MdioCodec.REG_DELAY then c.regDelay else c.cycleDelay);
    }
  }

  lemma {:induction false} MembersSize(c: MdioConfig.Config, k: nat)
    requires MdioConfig.Valid(c) && k <= MdioCodec.SETTINGS
    ensures |MdioCodec.ShowFrom(c, k)| <= 4804 * (MdioCodec.SETTINGS + 1 - k)
    decreases MdioCodec.SETTINGS - k
  {
    hide MdioCodec.ShowMember, MdioConfig.Valid;
    MemberSize(c, k);
    if k < MdioCodec.SETTINGS {
      MembersSize(c, k + 1);
    }
  }

  lemma FileSize(c: MdioConfig.Config)
    requires MdioConfig.Valid(c)
    ensures |MdioCodec.FormatConfig(c)| <= JSON_MAX
  {
    hide MdioCodec.ShowFrom, MdioConfig.Valid;
    MembersSize(c, 0);
  }

  lemma OtherText(s: string, t: string)
    requires MdioCodec.LowerCase(s) && MdioCodec.LowerCase(t) && s != t
    ensures Text(s) != Text(t)
  {
    TextDistinct(s, t);
  }

  /** None of the older keys is one of the newer ones. */
  lemma KeyIsOlder(k: nat)
    requires k < MdioCodec.KEYS
    ensures MdioCodec.KeyText(k) != Schema() && !ModernKey(MdioCodec.KeyText(k))
  {
    hide MdioCodec.KeyName, Text;
    MdioCodec.KeyShape(k);
    var name := MdioCodec.KeyName(k);
    KeyThird(k);
    OtherText(name, "schema_version");
    OtherText(name, "resources");
    OtherText(name, "transport");
    OtherText(name, "protocol");
    OtherText(name, "id");
  }

  lemma KeyThird(k: nat)
    requires k < MdioCodec.KEYS
    ensures |MdioCodec.KeyName(k)| > 2
    ensures k == MdioCodec.REG_COUNT ==> MdioCodec.KeyName(k)[2] == 'g'
    ensures k == MdioCodec.PHY_ADDR ==> MdioCodec.KeyName(k)[2] == 'y'
  {
  }

  lemma {:induction false} NumbersNeat(es: seq<Entry>)
    requires forall i :: 0 <= i < |es| ==> es[i].value.Number? && Printed(es[i].key)
    ensures NeatAll(es) && HeightAll(es) == 0
  {
    hide Printed;
    if es != [] {
      NumbersNeat(es[1..]);
    }
  }

  lemma NumbersFit(es: seq<Entry>)
    requires forall i :: 0 <= i < |es| ==> es[i].value.Number? && Printed(es[i].key)
    ensures Fitting(Braced(es), 1)
  {
    hide Printed, Fitting;
    NumbersNeat(es);
    FitsGroup(Braced(es), 0);
  }

  lemma ItemFits(x: MdioGrammar.Item)
    ensures Fitting(ItemDoc(x), 1)
  {
    hide MdioGrammar.FieldKey, Printed, Braced;
    FieldPrinted(MdioGrammar.REG);
    FieldPrinted(MdioGrammar.VAL);
    FieldPrinted(MdioGrammar.MASK);
    match x
    case ARule(r) => NumbersFit(RuleEntries(r));
    case ASetting(s) => NumbersFit(SettingEntries(s));
    case ARegister(_) =>
  }

  lemma FieldPrinted(bit: nat)
    requires bit <= MdioGrammar.MASK
    ensures Printed(MdioGrammar.FieldKey(bit))
  {
    AsciiValid(MdioGrammar.FieldKey(bit));
  }

  lemma MemberFits(c: MdioConfig.Config, k: nat)
    requires MdioConfig.Valid(c) && k <= MdioCodec.SETTINGS
    ensures Fitting(MemberDoc(c, k), 2)
  {
    hide Items, ItemDoc, MdioCodec.PolicyName, Text, MdioConfig.Distinct, Fitting;
    if k == MdioCodec.NAME {
      SafeFits(c.name);
    } else if k == MdioCodec.POLICY {
      MdioCodec.PolicyNames(c.policy);
      LowerFits(MdioCodec.PolicyName(c.policy));
    } else if k < MdioCodec.AUTOPOLL_REGS {
      ScalarFits(MemberDoc(c, k));
    } else {
      var xs := MemberItems(c, k);
      forall i | 0 <= i < |xs| ensures Fitting(ItemDocs(xs)[i], 1) { ItemFits(xs[i]); }
      BracketsFit(ItemDocs(xs), 1);
    }
  }

  lemma ScalarFits(d: Doc)
    requires d.Number? || d.Flag?
    ensures Fitting(d, 2)
  {
  }

  lemma SafeFits(name: Bytes)
    requires MdioConfig.SafeName(name)
    ensures Fitting(Word(name), 2)
  {
    forall i | 0 <= i < |name| ensures 32 <= name[i] < 127 { assert MdioConfig.SafeChar(name[i]); }
    AsciiValid(name);
  }

  lemma LowerFits(s: string)
    requires MdioCodec.LowerCase(s)
    ensures Printed(Text(s)) && Fitting(Word(Text(s)), 2)
  {
    AsciiValid(Text(s));
  }

  lemma {:induction false} MembersFit(c: MdioConfig.Config, k: nat)
    requires MdioConfig.Valid(c) && k <= MdioCodec.SETTINGS + 1
    ensures NeatAll(MembersFrom(c, k)) && HeightAll(MembersFrom(c, k)) <= 2 && Older(MembersFrom(c, k))
    decreases MdioCodec.SETTINGS + 1 - k
  {
    hide MemberDoc, Neat, Height, Printed, ModernKey, Schema, MdioCodec.KeyName, Text, MdioConfig.Valid;
    if k <= MdioCodec.SETTINGS {
      MdioCodec.KeyShape(k);
      LowerFits(MdioCodec.KeyName(k));
      KeyIsOlder(k);
      MdioCodec.KeysPlain(k);
      MemberFits(c, k);
      MembersFit(c, k + 1);
      var es := MembersFrom(c, k);
      assert es[1..] == MembersFrom(c, k + 1) && es == [es[0]] + MembersFrom(c, k + 1);
    }
  }

  /** Every configuration printed in the older format passes the gate as such. */
  lemma PrintedIsOlder(c: MdioConfig.Config)
    requires MdioConfig.Valid(c)
    ensures Probe(MdioCodec.FormatConfig(c)) == Good(LEGACY)
  {
    hide MembersFrom, Show, MdioConfig.Valid, MdioCodec.FormatConfig, NeatAll, HeightAll, Older, Probe;
    FileShown(c);
    FileSize(c);
    MembersFit(c, 0);
    LineSkipped();
    FitsGroup(FileDoc(c), 2);
    OlderText(FileDoc(c), LINE);
  }

  // ----- Main results

  /** A configuration printed in the older format is read back as it was. */
  lemma OlderReadsBack(c: MdioConfig.Config)
    requires MdioConfig.Valid(c)
    ensures ParseFile(MdioCodec.FormatConfig(c)) == Good(FromLegacy(c))
  {
    hide MdioConfig.Valid, MdioCodec.FormatConfig, Probe, MdioCodec.ParseConfig;
    PrintedIsOlder(c);
    MdioCodec.ParseUndoesFormat(c);
  }

  /** A configuration printed in the newer format is read back in canonical form exactly when its texts are UTF-8. */
  lemma NewerReadsBack(p: Profile, cap: nat)
    requires p.mdio && Typed(p) && Format(p, cap).Good?
    ensures p.count <= 256
    ensures ParseFile(Format(p, cap).value) == if Legible(Canon(p).meta) then Good(Canon(p)) else Fail(Malformed)
  {
    hide ParseProfile, Document, Typed, Legible, Canon, Format, ProbeFrom, MdioCodec.ParseConfig;
    ReadsBack(p, cap);
    if Legible(Canon(p).meta) {
      AcceptedIsModern(Format(p, cap).value, true);
    } else {
      IllegibleRefused(p, cap);
    }
  }

  /** What the metadata adds, the bus does not see. */
  lemma CanonSameBus(p: Profile)
    requires p.mdio && p.count < 0x100
    ensures MdioPart(Canon(p)) == MdioPart(p)
  {
    hide RegIds, Text;
  }

  lemma LegacyTyped(c: MdioConfig.Config)
    requires MdioConfig.Valid(c)
    ensures Typed(FromLegacy(c)) && MdioPart(FromLegacy(c)) == c
  {
    hide MdioConfig.SafeName, MdioConfig.Distinct;
  }

  lemma LegacyLegible(p: Profile, cap: nat)
    requires Typed(p) && p.meta.version == LEGACY && Format(p, cap).Good?
    ensures p.count <= 256 && Legible(Canon(p).meta)
  {
    hide Canon, Format, Typed, IdValid;
    FormattedIsValid(p, cap);
    CanonLegible(p);
  }

  lemma CanonLegible(p: Profile)
    requires p.count <= 256 && p.meta.version == LEGACY && IdValid(p.name)
    ensures Legible(Canon(p).meta)
  {
    hide RegIds, Text;
    IdSpellable(p.name);
  }

  /** A file read in either format and kept in the newer one reads back, and the bus sees the same configuration. */
  lemma KeptReadsBack(json: Bytes, p: Profile, cap: nat)
    requires ParseFile(json) == Good(p)
    ensures p.mdio && Typed(p) && (p.meta.version == MODERN || p.meta.version == LEGACY)
    ensures var kept := Format(p, cap);
      kept.Good? ==> p.count <= 256 && ParseFile(kept.value) == Good(Canon(p)) && MdioPart(Canon(p)) == MdioPart(p)
  {
    hide ParseProfile, Probe, MdioCodec.ParseConfig, Typed, Format, Canon, Legible, ParseFile;
    FileAccepted(json, p);
    if Format(p, cap).Good? {
      FormattedIsValid(p, cap);
      NewerReadsBack(p, cap);
      if p.meta.version == LEGACY {
        LegacyLegible(p, cap);
      }
      TypedCount(p);
      CanonSameBus(p);
    }
  }

  lemma TypedCount(p: Profile)
    requires Typed(p) && p.mdio
    ensures p.count < 0x100
  {
  }

  /** Where an accepted file comes from. */
  lemma FileFrom(json: Bytes, p: Profile)
    requires ParseFile(json) == Good(p)
    ensures ParseProfile(json, true) == Good(p) || (MdioCodec.ParseConfig(json).Some? && p == FromLegacy(MdioCodec.ParseConfig(json).value))
  {
    hide ParseProfile, Probe, MdioCodec.ParseConfig;
  }

  lemma FileAccepted(json: Bytes, p: Profile)
    requires ParseFile(json) == Good(p)
    ensures p.mdio && Typed(p) && (p.meta.version == LEGACY || p.meta.version == MODERN)
    ensures p.meta.version == MODERN ==> p.count <= 256 && Legible(Canon(p).meta)
  {
    hide ParseFile, ParseProfile, MdioCodec.ParseConfig, Typed, Legible, Sound, MdioConfig.Valid, Canon;
    FileFrom(json, p);
    if ParseProfile(json, true) == Good(p) {
      ParsedIsSound(json, true);
      SoundIsCanon(p);
      SoundMeta(p);
    } else {
      MdioCodec.AcceptedIsValid(json);
      LegacyTyped(MdioCodec.ParseConfig(json).value);
    }
  }
}
