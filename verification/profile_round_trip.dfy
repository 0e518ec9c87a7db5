/**
 What the two halves of the version 2 codec are to each other: whatever is read is sound, is printed again whenever it
 fits, and what is printed of any valid configuration is read back in canonical form exactly when its texts are UTF-8.
 */
module ProfileRoundTrip {
  import opened Words
  import opened Statuses
  import opened Utf8
  import opened Tokens
  import opened JsonText
  import opened JsonDocs
  import opened JsonTables
  import opened ProfileModel
  import opened ProfileParser
  import opened ProfilePrinter
  import opened ProfileKeys
  import opened ProfileCodec
  import MdioConfig

  // ----- Strings read are UTF-8

  lemma EncodedValid(cp: nat)
    requires Encoded(cp).Some?
    ensures Utf8Valid(Encoded(cp).value)
  {
    var b := Encoded(cp).value;
    assert Utf8Length(b) == |b|;
    assert b[|b|..] == [];
  }

  lemma OneValid(b: Bytes)
    requires Utf8Length(b) > 0
    ensures Utf8Valid(b[..Utf8Length(b)])
  {
    var n := Utf8Length(b);
    var c := b[..n];
    assert Utf8Length(c) == n;
    assert c[n..] == [];
  }

  lemma CharValid(b: Bytes)
    requires Char(b).Some?
    ensures Utf8Valid(Char(b).value.0)
  {
    hide Utf8Length, Unicode, Utf8Valid, Encoded;
    if b[0] == ESCAPE {
      if b[1] == 'u' as int {
        EncodedValid(Unicode(b[2..]).value.0);
      } else {
        AsciiValid(Char(b).value.0);
      }
    } else {
      OneValid(b);
    }
  }

  lemma {:induction false} CharsValid(b: Bytes)
    requires Chars(b).Some?
    ensures Utf8Valid(Chars(b).value.0)
    decreases |b|
  {
    hide Char;
    if b != [] && b[0] == QUOTE {
    } else {
      CharValid(b);
      CharsValid(Char(b).value.1);
      Utf8Concat(Char(b).value.0, Chars(Char(b).value.1).value.0);
    }
  }

  lemma SpelledValid(view: Option<Bytes>, cap: nat)
    requires Spelled(view, cap).Some?
    ensures Spellable(Spelled(view, cap).value, cap)
  {
    hide Chars, Utf8Valid;
    CharsValid(view.value[1..]);
  }

  // ----- What is read is sound

  lemma HeadSound(r: Views)
    requires |r| == 12 && ParseHead(r).Good?
    ensures IdValid(ParseHead(r).value.0)
  {
    hide Spelled, Counted, IdValid, RegisterMapName, ViewName;
  }

  lemma DeviceSound(view: Option<Bytes>)
    requires ParseDevice(view).Good?
    ensures var (model, vendor, _, caption) := ParseDevice(view).value;
      Spellable(model, MODEL_CAP) && Spellable(vendor, MODEL_CAP) && Spellable(caption, LABEL_CAP)
  {
    hide Spelled, Members, ClassValid, DeviceKeys, Spellable, Text;
    var f := Members(view, DeviceKeys()).value;
    SpelledValid(f[0], MODEL_CAP);
    OptionalSound(f[1], MODEL_CAP);
    OptionalSound(f[3], LABEL_CAP);
  }

  lemma OptionalSound(view: Option<Bytes>, cap: nat)
    requires cap > 0 && Optional(view, cap).Some?
    ensures Spellable(Optional(view, cap).value, cap)
  {
    hide Spelled;
    if view.Some? {
      SpelledValid(view, cap);
    }
  }

  lemma TransportSound(view: Option<Bytes>, mdio: bool)
    requires ParseTransport(view, mdio).Good?
    ensures ParseTransport(view, mdio).value <= AddressMax(mdio)
  {
    hide Members, Reads, Hexed, Counted, TransportKeys, BusName, Controller;
  }

  lemma OptionsSound(o: OptionViews, mdio: bool)
    requires ParseOptions(o, mdio).Good?
    ensures var r := ParseOptions(o, mdio).value;
      if mdio then r.regDelay <= REG_DELAY_MAX && r.cycleDelay <= CYCLE_DELAY_MAX && r.maxValue == 0
      else !r.autopoll && r.regDelay == 0 && r.cycleDelay == 0 && r.maxValue <= MAX_CODE
  {
    hide Hexed, Counted, Flagged;
  }

  lemma RuleSound(view: Bytes, ids: seq<Bytes>, mdio: bool, most: nat)
    requires |ids| <= 256 && ParseRule(view, ids, mdio, most).Good?
    ensures RuleFits(ParseRule(view, ids, mdio, most).value, |ids|, mdio, most)
  {
    hide Members, Hexed, Lookup, RuleKeys, MatchKeys;
  }

  lemma {:induction false} RulesSound(list: Option<Bytes>, from: Option<Bytes>, ids: seq<Bytes>, mdio: bool, most: nat, rules: seq<Rule>)
    requires |ids| <= 256 && RulesFit(rules, |ids|, mdio, most) && ParseRules(list, from, ids, mdio, most, rules).Good?
    ensures RulesFit(ParseRules(list, from, ids, mdio, most, rules).value, |ids|, mdio, most)
    decreases Left(list, from)
  {
    hide Following, ParseRule, RuleFits;
    match Following(list, from)
    case Item(view, rest) =>
      RuleSound(view, ids, mdio, most);
      RulesSound(list, Some(rest), ids, mdio, most, rules + [ParseRule(view, ids, mdio, most).value]);
    case _ =>
  }

  lemma SeedSound(view: Bytes, ids: seq<Bytes>, mdio: bool)
    requires |ids| <= 256 && ParseSeed(view, ids, mdio).Good?
    ensures ParseSeed(view, ids, mdio).value.reg < |ids| && ParseSeed(view, ids, mdio).value.val <= Maximum(mdio)
  {
    hide Members, Hexed, Lookup, SeedKeys;
  }

  lemma {:induction false} RegsAppend(seeds: seq<Setting>, s: Setting)
    ensures MdioConfig.SettingRegs(seeds + [s]) == MdioConfig.SettingRegs(seeds) + [s.reg]
  {
  }

  lemma {:induction false} SeedsSound(list: Option<Bytes>, from: Option<Bytes>, ids: seq<Bytes>, mdio: bool, seeds: seq<Setting>)
    requires |ids| <= 256 && SeedsFit(seeds, |ids|, mdio) && ParseSeeds(list, from, ids, mdio, seeds).Good?
    ensures SeedsFit(ParseSeeds(list, from, ids, mdio, seeds).value, |ids|, mdio)
    decreases Left(list, from)
  {
    hide Following, ParseSeed, MdioConfig.SettingRegs;
    match Following(list, from)
    case Item(view, rest) =>
      SeedSound(view, ids, mdio);
      var seed := ParseSeed(view, ids, mdio).value;
      RegsAppend(seeds, seed);
      SeedsSound(list, Some(rest), ids, mdio, seeds + [seed]);
    case _ =>
  }

  lemma SettingsSound(view: Option<Bytes>, ids: seq<Bytes>, mdio: bool)
    requires |ids| <= 256 && ParseSettings(view, ids, mdio).Good?
    ensures SeedsFit(ParseSettings(view, ids, mdio).value, |ids|, mdio)
  {
    hide Members, Flagged, EmptyList, SettingsKeys, ParseSeeds;
    if view.Some? {
      SeedsSound(Members(view, SettingsKeys()).value[0], None, ids, mdio, []);
    }
  }

  /** What a valid MDIO profile says of the registers it polls. */
  lemma PollingValid(p: Profile)
    requires p.mdio && Validate(p) == Ok
    ensures |p.polled| <= 32 && (forall i :: 0 <= i < |p.polled| ==> p.polled[i] < p.count) && MdioConfig.Distinct(p.polled) && 0 < p.count <= 32
  {
    hide MetaValid, MdioConfig.RegistersVerdict, MdioConfig.SafeName;
    MdioConfig.ValidateIs(MdioPart(p));
  }

  lemma ValidMeta(p: Profile)
    requires Validate(p) == Ok
    ensures MetaValid(p.meta, p.count) && 0 < p.count <= CountMax(p.mdio)
  {
    hide MetaValid, MdioConfig.RegistersVerdict, MdioConfig.SafeName;
    if p.mdio {
      MdioConfig.ValidateIs(MdioPart(p));
    }
  }

  /** Whatever the reader accepts is a sound profile of its bus. */
  lemma ParsedIsSound(json: Bytes, mdio: bool)
    requires ParseProfile(json, mdio).Good?
    ensures Sound(ParseProfile(json, mdio).value) && ParseProfile(json, mdio).value.mdio == mdio
  {
    hide Document, Fields, ParseViews, RootKeys, Sound;
    ViewsSound(Fields(Document(json).value, RootKeys()).value, mdio);
  }

  lemma ViewsSound(r: Views, mdio: bool)
    requires |r| == 12 && ParseViews(r, mdio).Good?
    ensures Sound(ParseViews(r, mdio).value) && ParseViews(r, mdio).value.mdio == mdio
  {
    hide ParseHead, ParseDevice, ParseTransport, ParseProtocol, ParseOptions, ParseDefaults, ParseIds, ParseOrder, ParsePolicy, ParseRules,
      ParseSettings, ParseObservability, Validate, MetaValid, RulesFit, SeedsFit, Spellable, IdValid, MdioConfig.Distinct;
    var p := ParseViews(r, mdio).value;
    HeadSound(r);
    DeviceSound(r[2]);
    TransportSound(r[3], mdio);
    var options := ParseProtocol(r[4], mdio).value;
    OptionsSound(options, mdio);
    var ids := ParseIds(r[5], ParseDefaults(r[6]).value, mdio).value;
    var (_, allowed, denied) := ParsePolicy(r[7]).value;
    NoRules(|ids|, mdio, p.maxValue);
    RulesSound(allowed, None, ids, mdio, p.maxValue, []);
    RulesSound(denied, None, ids, mdio, p.maxValue, []);
    SettingsSound(r[8], ids, mdio);
    ValidMeta(p);
    if mdio {
      PollingValid(p);
    } else {
      NonePolled();
    }
  }

  lemma NoRules(count: nat, mdio: bool, most: nat)
    ensures RulesFit([], count, mdio, most)
  {
  }

  lemma NonePolled()
    ensures MdioConfig.Distinct([])
  {
  }

  // ----- The canonical form

  lemma {:induction false} LastOnlyIs(seeds: seq<Setting>)
    ensures forall x :: x in LastOnly(seeds) ==> x in seeds
    ensures forall r :: r in MdioConfig.SettingRegs(LastOnly(seeds)) <==> r in MdioConfig.SettingRegs(seeds)
    ensures MdioConfig.Distinct(MdioConfig.SettingRegs(LastOnly(seeds)))
  {
    hide MdioConfig.SettingRegs;
    if seeds == [] {
      RegsFront(seeds);
      LastOnlyStep(seeds);
    } else {
      var others := LastOnly(seeds[1..]);
      LastOnlyIs(seeds[1..]);
      LastOnlyStep(seeds);
      RegsFront(seeds);
      RegsFront([seeds[0]] + others);
      assert ([seeds[0]] + others)[1..] == others;
    }
  }

  lemma RegsFront(seeds: seq<Setting>)
    ensures seeds == [] ==> MdioConfig.SettingRegs(seeds) == []
    ensures seeds != [] ==> MdioConfig.SettingRegs(seeds) == [seeds[0].reg] + MdioConfig.SettingRegs(seeds[1..])
  {
  }

  lemma LastOnlyStep(seeds: seq<Setting>)
    ensures seeds == [] ==> LastOnly(seeds) == []
    ensures seeds != [] && seeds[0].reg in MdioConfig.SettingRegs(seeds[1..]) ==> LastOnly(seeds) == LastOnly(seeds[1..])
    ensures seeds != [] && seeds[0].reg !in MdioConfig.SettingRegs(seeds[1..]) ==> LastOnly(seeds) == [seeds[0]] + LastOnly(seeds[1..])
  {
  }

  /** The value a register is left with when the seeds are applied in order. */
  function Effective(seeds: seq<Setting>, reg: u8): Option<u16> {
    if seeds == [] then None
    else if seeds[|seeds| - 1].reg == reg then Some(seeds[|seeds| - 1].val)
    else Effective(seeds[..|seeds| - 1], reg)
  }

  lemma {:induction false} EffectiveFirst(seeds: seq<Setting>, reg: u8)
    requires seeds != []
    ensures Effective(seeds, reg) ==
            if reg in MdioConfig.SettingRegs(seeds[1..]) then Effective(seeds[1..], reg)
            else if seeds[0].reg == reg then Some(seeds[0].val) else None
    ensures reg !in MdioConfig.SettingRegs(seeds) ==> Effective(seeds, reg) == None
    decreases |seeds|
  {
    var n := |seeds| - 1;
    if n == 0 {
      assert seeds[..0] == [] && seeds[1..] == [];
    } else {
      EffectiveFirst(seeds[..n], reg);
      assert seeds[..n][1..] == seeds[1..][..n - 1];
      assert seeds[1..] == seeds[1..][..n - 1] + [seeds[n]];
      RegsAppend(seeds[1..][..n - 1], seeds[n]);
      assert seeds == seeds[..n] + [seeds[n]];
      RegsAppend(seeds[..n], seeds[n]);
    }
  }

  /** Leaving away what is overwritten changes no effective value. */
  lemma {:induction false} EffectiveKept(seeds: seq<Setting>, reg: u8)
    ensures Effective(LastOnly(seeds), reg) == Effective(seeds, reg)
  {
    hide LastOnly, Effective;
    LastOnlyStep(seeds);
    if seeds != [] {
      EffectiveKept(seeds[1..], reg);
      EffectiveFirst(seeds, reg);
      LastOnlyIs(seeds[1..]);
      if seeds[0].reg in MdioConfig.SettingRegs(seeds[1..]) {
        NoEffect(seeds[1..], reg);
      } else {
        EffectiveFirst(LastOnly(seeds), reg);
        assert LastOnly(seeds)[1..] == LastOnly(seeds[1..]);
      }
    }
  }

  lemma NoEffect(seeds: seq<Setting>, reg: u8)
    ensures reg !in MdioConfig.SettingRegs(seeds) ==> Effective(seeds, reg) == None
  {
    if seeds != [] {
      EffectiveFirst(seeds, reg);
    }
  }

  lemma {:induction false} LastOnlySame(seeds: seq<Setting>)
    requires MdioConfig.Distinct(MdioConfig.SettingRegs(seeds))
    ensures LastOnly(seeds) == seeds
  {
    hide MdioConfig.SettingRegs, LastOnly;
    LastOnlyStep(seeds);
    if seeds != [] {
      RegsFront(seeds);
      var regs := MdioConfig.SettingRegs(seeds);
      assert regs[1..] == MdioConfig.SettingRegs(seeds[1..]);
      assert seeds[0].reg !in regs[1..] by { assert forall i :: 0 < i < |regs| ==> regs[0] != regs[i]; }
      LastOnlySame(seeds[1..]);
      assert [seeds[0]] + seeds[1..] == seeds;
    }
  }

  // ----- Ids of registers that have none

  lemma RegIdValid(reg: nat)
    requires reg < 256
    ensures IdValid(RegId(reg))
  {
    hide LowHex;
    var id := RegId(reg);
    assert id[0] == 'r' as int && id[1] == 'e' as int && id[2] == 'g' as int && id[3] == '_' as int;
    assert id[4] == LowHex(reg / 16) && id[5] == LowHex(reg % 16);
  }

  lemma RegIdsDiffer(i: nat, j: nat)
    requires i < j < 256
    ensures RegId(i) != RegId(j)
  {
    hide Text;
    assert RegId(i)[4] == LowHex(i / 16) && RegId(i)[5] == LowHex(i % 16);
    assert RegId(j)[4] == LowHex(j / 16) && RegId(j)[5] == LowHex(j % 16);
  }

  lemma {:induction false} RegIdsSize(n: nat)
    requires n <= 256
    ensures IdsSize(RegIds(n)) == 7 * n
  {
    hide RegId;
    if n == 0 {
      NoSize();
    } else {
      RegIdsSize(n - 1);
      SizeAppend(RegIds(n - 1), RegId(n - 1));
    }
  }

  lemma RegIdsValid(n: nat)
    requires n <= 256
    ensures IdsValid(RegIds(n)) && 1 + IdsSize(RegIds(n)) <= IDS_CAP
  {
    hide RegId, RegIds, IdsSize, IdValid;
    RegIdsSize(n);
    forall i | 0 <= i < n ensures IdValid(RegIds(n)[i]) { RegIdValid(i); }
    forall i, j | 0 <= i < j < n ensures RegIds(n)[i] != RegIds(n)[j] { RegIdsDiffer(i, j); }
  }

  // ----- Canonical forms are sound

  /** The free texts are UTF-8. */
  predicate Legible(m: Meta) { Utf8Valid(m.model) && Utf8Valid(m.vendor) && Utf8Valid(m.caption) }

  lemma IdSpellable(id: Bytes)
    requires IdValid(id)
    ensures Spellable(id, NAME_CAP)
  {
    forall i | 0 <= i < |id| ensures 32 < id[i] < 127 { assert IdChar(id[i]); }
    AsciiValid(id);
  }

  lemma KindsValid()
    ensures ClassValid(Text("phy")) && ClassValid(Text("generic"))
  {
    hide Text;
    assert ClassNames()[0] == Text("generic") && ClassNames()[1] == Text("phy");
  }

  lemma EmptySpellable(cap: nat)
    requires cap > 0
    ensures Spellable([], cap)
  {
  }

  lemma CanonMeta(p: Profile)
    requires p.count <= 256 && p.count > 0 && MetaValid(p.meta, p.count) && IdValid(p.name) && Speakable(Canon(p).meta) && Legible(Canon(p).meta)
    ensures var m := Canon(p).meta;
      && m.version == 2 && MetaValid(m, p.count) && Spellable(m.model, MODEL_CAP) && Spellable(m.vendor, MODEL_CAP) && Spellable(m.caption, LABEL_CAP)
  {
    hide IdsSize, IdsValid, ClassValid, RegisterMapName, ViewName, RegIds, IdValid, Text, Utf8Valid, Showable, LastOnly;
    if p.meta.version == 0 {
      RegIdsValid(p.count);
      IdSpellable(p.name);
      KindsValid();
      EmptySpellable(MODEL_CAP);
      IdLength(p.name);
    }
  }

  lemma IdLength(s: Bytes)
    requires IdValid(s)
    ensures 0 < |s| < NAME_CAP
  {
  }

  lemma ValidLists(p: Profile)
    requires Typed(p) && Validate(p) == Ok
    ensures p.address <= AddressMax(p.mdio) && 0 < p.count <= CountMax(p.mdio) && MetaValid(p.meta, p.count)
    ensures RulesFit(p.white, p.count, p.mdio, p.maxValue) && RulesFit(p.deny, p.count, p.mdio, p.maxValue)
    ensures |p.seeds| <= SeedsMax(p.mdio) && forall i :: 0 <= i < |p.seeds| ==> p.seeds[i].reg < p.count && p.seeds[i].val <= Maximum(p.mdio)
    ensures (forall i :: 0 <= i < |p.polled| ==> p.polled[i] < p.count) && MdioConfig.Distinct(p.polled)
    ensures if p.mdio then |p.polled| <= 32 && p.regDelay <= REG_DELAY_MAX && p.cycleDelay <= CYCLE_DELAY_MAX
                           && MdioConfig.Distinct(MdioConfig.SettingRegs(p.seeds))
            else p.maxValue <= MAX_CODE
  {
    hide MetaValid, MdioConfig.RegistersVerdict, MdioConfig.SafeName, MdioConfig.SettingRegs;
    if p.mdio {
      MdioConfig.ValidateIs(MdioPart(p));
      assert MdioConfig.Valid(MdioPart(p));
    }
  }

  /** A valid configuration whose texts can be printed and are UTF-8 has a sound canonical form. */
  lemma CanonIsSound(p: Profile)
    requires Typed(p) && Validate(p) == Ok && IdValid(p.name) && p.count <= 256 && Speakable(Canon(p).meta) && Legible(Canon(p).meta)
    ensures Sound(Canon(p))
  {
    hide MetaValid, Validate, IdValid, Speakable, Legible, MdioConfig.SettingRegs, Spellable, LastOnly, RegIds, Text, RulesFit, MdioConfig.Distinct;
    ValidLists(p);
    CanonMeta(p);
    if !p.mdio {
      var kept := LastOnly(p.seeds);
      LastOnlyIs(p.seeds);
      forall i | 0 <= i < |kept| ensures kept[i].reg < p.count && kept[i].val <= Maximum(p.mdio) { assert kept[i] in p.seeds; }
      assert SeedsFit(kept, p.count, p.mdio);
      NonePolled();
    }
  }

  /** A sound profile is valid, can be printed, and is its own canonical form. */
  lemma SoundIsCanon(c: Profile)
    requires Sound(c)
    ensures Typed(c) && Validate(c) == Ok && c.count <= 256 && Canon(c) == c && Speakable(c.meta) && Legible(c.meta) && Named(c)
  {
    hide MetaValid, Validate, IdValid, MdioConfig.SettingRegs, LastOnly, RegIds, Text, MdioConfig.Distinct, Utf8Valid, Showable, Named;
    SoundIsValid(c);
    SoundNames(c);
    SoundMeta(c);
    if !c.mdio {
      LastOnlySame(c.seeds);
    }
  }

  // ----- Main results

  lemma SoundFormat(c: Profile, cap: nat)
    requires Sound(c) && cap > 0
    ensures Typed(c) && Named(c)
    ensures Format(c, cap) == if |TextOf(c)| < cap && |TextOf(c)| <= JSON_MAX then Good(TextOf(c)) else Fail(Range)
  {
    hide Sound, Named, TextOf, Speakable, Legible, Typed, Validate, IdValid, Canon, ParseProfile, ClassValid, MetaValid, Spellable;
    SoundIsCanon(c);
    SoundTexts(c);
  }

  /** Whatever was read is printed again unless it does not fit, and that text reads as the same profile. */
  lemma Reprinted(json: Bytes, mdio: bool, p: Profile, cap: nat)
    requires ParseProfile(json, mdio) == Good(p) && cap > 0
    ensures Typed(p) && Named(p)
    ensures var printed := Format(p, cap);
      && printed == (if |TextOf(p)| < cap && |TextOf(p)| <= JSON_MAX then Good(TextOf(p)) else Fail(Range))
      && (printed.Good? ==> ParseProfile(printed.value, mdio) == Good(p))
  {
    hide ParseProfile, Sound, Named, TextOf, Typed, Format;
    ParsedIsSound(json, mdio);
    SoundFormat(p, cap);
    if Format(p, cap).Good? {
      TextTaken(p);
    }
  }

  /** What is printed of a valid configuration is read back as its canonical form if its texts are UTF-8. */
  lemma LegibleReadsBack(p: Profile, cap: nat)
    requires Typed(p) && Format(p, cap).Good? && Legible(Canon(p).meta)
    ensures ParseProfile(Format(p, cap).value, p.mdio) == Good(Canon(p))
  {
    hide ParseProfile, Sound, Named, TextOf, Speakable, Legible, Typed, Validate, IdValid, Canon;
    ValidIsNamed(p);
    CanonIsSound(p);
    TextTaken(Canon(p));
    assert Canon(p).mdio == p.mdio by { CanonKeeps(p); }
  }

  lemma CanonKeeps(p: Profile)
    requires p.count <= 256
    ensures Canon(p) == p.(seeds := Canon(p).seeds, meta := Canon(p).meta)
  {
  }

  // ----- Texts that are not UTF-8

  /** The same profile with texts that are. */
  function Respelled(m: Meta): Meta { m.(model := Text("x"), vendor := [], caption := []) }

  lemma RespelledFits(m: Meta, count: nat)
    requires MetaValid(m, count) && m.version == 2
    ensures MetaValid(Respelled(m), count) && Speakable(Respelled(m)) && Legible(Respelled(m))
  {
    hide IdsSize, IdsValid, ClassValid, RegisterMapName, ViewName;
    ShortSpelled("x");
    EmptySpellable(1);
  }

  /** A table that is bare and of bounded height. */
  predicate Plainly(d: Doc, h: nat) { Bare(d) && Height(d) <= h }

  lemma FittingIsPlain(d: Doc, h: nat)
    requires Fitting(d, h)
    ensures Plainly(d, h)
  {
    NeatIsBare(d);
  }

  lemma BareText(s: Bytes)
    requires Showable(s)
    ensures Plainly(Word(s), 0) && (Neat(Word(s)) ==> Utf8Valid(s))
  {
  }

  lemma DeviceBroken(m: Meta)
    requires MetaValid(m, |m.ids|) && m.version == 2 && Speakable(m) && !Legible(m)
    ensures Plainly(DeviceDoc(m), 1) && !Neat(DeviceDoc(m))
  {
    hide DeviceKeys, Text, Rows, Neat, Height, Bare, IdsSize, IdsValid, ClassValid, RegisterMapName, ViewName, Utf8Valid, KeysFit, Plainly, Showable;
    DeviceKeysFit();
    ClassFits(m.kind);
    ShowableKind(m.kind);
    BareText(m.model);
    BareText(m.vendor);
    BareText(m.caption);
    BareText(m.kind);
    var slots := [Slot(0, true, Word(m.model)), Slot(2, true, Word(m.kind)), Slot(1, m.vendor != [], Word(m.vendor)),
                  Slot(3, m.caption != [], Word(m.caption))];
    BracesPlain(DeviceKeys(), slots, 0);
    EmptySpellable(1);
    if !Utf8Valid(m.model) {
      BracesBroken(DeviceKeys(), slots, 0);
    } else if !Utf8Valid(m.vendor) {
      BracesBroken(DeviceKeys(), slots, 2);
    } else {
      BracesBroken(DeviceKeys(), slots, 3);
    }
  }

  lemma ShowableKind(kind: Bytes)
    requires Spellable(kind, CLASS_CAP)
    ensures Showable(kind)
  {
  }

  lemma BracesPlain(keys: seq<Bytes>, slots: seq<Slot>, h: nat)
    requires KeysFit(keys) && Numbered(slots, |keys|)
    requires forall i :: 0 <= i < |slots| && slots[i].there ==> Plainly(slots[i].doc, h)
    ensures Plainly(Braces(keys, slots), 1 + h)
  {
    hide Rows, KeysFit, BareAll, HeightAll;
    RowsBare(keys, slots, h);
  }

  lemma BracesBroken(keys: seq<Bytes>, slots: seq<Slot>, k: nat)
    requires Numbered(slots, |keys|) && k < |slots| && slots[k].there && !Neat(slots[k].doc)
    ensures !Neat(Braces(keys, slots))
  {
    hide Rows, NeatAll;
    if NeatAll(Rows(keys, slots)) {
      RowsNeatOnly(keys, slots, k);
    }
  }

  predicate SameButDevice(a: seq<Slot>, b: seq<Slot>, m: Meta) {
    |a| == |b| == 12 && a[4] == Slot(2, true, DeviceDoc(m)) && b[4].key == 2 && forall i :: 0 <= i < 12 && i != 4 ==> a[i] == b[i]
  }

  predicate SameSections(c: Profile, e: Profile)
    requires Named(c) && Named(e)
  {
    hide RootSlots, Named;
    SameButDevice(RootSlots(c), RootSlots(e), c.meta)
  }

  /** Only the device section depends on the free texts. */
  lemma SectionsKept(c: Profile, e: Profile)
    requires Named(c) && Named(e) && e == c.(meta := e.meta) && e.meta == Respelled(c.meta)
    ensures SameSections(c, e)
  {
    hide DeviceDoc, TransportDoc, DefaultsDoc, ResourcesDoc, ObserveDoc, Named, Text, Braces, RuleDocs, SeedDocs, OrderDocs, Items, Hex,
      ProtocolKeys, OptionKeys, PolicyKeys, PolicyEntryKeys, SettingsKeys, Driver, ModeName;
  }

  lemma SlotsKept(a: seq<Slot>, b: seq<Slot>, m: Meta)
    requires SameButDevice(a, b, m) && SlotsFit(b, 12, 5) && Plainly(DeviceDoc(m), 1)
    ensures Numbered(a, 12) && forall i :: 0 <= i < |a| && a[i].there ==> Plainly(a[i].doc, 5)
  {
    hide DeviceDoc, Neat, Bare, Height;
    forall i | 0 <= i < |a| && a[i].there ensures Plainly(a[i].doc, 5) {
      if i != 4 {
        FittingIsPlain(b[i].doc, 5);
      }
    }
  }

  lemma RootBroken(c: Profile, e: Profile)
    requires Named(c) && Named(e) && Sound(e) && e == c.(meta := e.meta) && e.meta == Respelled(c.meta)
    requires Plainly(DeviceDoc(c.meta), 1) && !Neat(DeviceDoc(c.meta))
    ensures Plainly(Root(c), 6) && !Neat(Root(c))
  {
    hide RootKeys, RootSlots, KeysFit, Sound, Named, DeviceDoc, Neat, Plainly, Rows, SlotsFit, Numbered, Respelled;
    RootKeysFit();
    RootSlotsFit(e);
    SectionsKept(c, e);
    SlotsKept(RootSlots(c), RootSlots(e), c.meta);
    GroupBroken(RootKeys(), RootSlots(c), 5, 4);
  }

  lemma GroupBroken(keys: seq<Bytes>, slots: seq<Slot>, h: nat, k: nat)
    requires KeysFit(keys) && Numbered(slots, |keys|) && k < |slots| && slots[k].there && !Neat(slots[k].doc)
    requires forall i :: 0 <= i < |slots| && slots[i].there ==> Plainly(slots[i].doc, h)
    ensures var d := Group(true, Rows(keys, slots), LINE2, LINE2, LINE);
      Plainly(d, 1 + h) && !Neat(d)
  {
    hide Rows, KeysFit, BareAll, HeightAll, NeatAll;
    RowsBare(keys, slots, h);
    LineSkipped();
    if NeatAll(Rows(keys, slots)) {
      RowsNeatOnly(keys, slots, k);
    }
  }

  lemma TextBroken(c: Profile)
    requires Named(c) && Plainly(Root(c), 6) && !Neat(Root(c))
    ensures Document(TextOf(c)) == Fail(Malformed)
  {
    hide Named, Root, Show, Neat, Bare, Value, Skip;
    var d := Root(c);
    ShowStarts(d);
    SkipNone(TextOf(c));
    LineSkipped();
    ValueBroken(d, 0, LINE);
  }

  lemma NoDocument(json: Bytes, mdio: bool)
    requires Document(json).Fail?
    ensures ParseProfile(json, mdio) == Fail(Document(json).status)
  {
  }

  /** A text that is not UTF-8 is printed all the same, and refused when it is read. */
  lemma IllegibleRefused(p: Profile, cap: nat)
    requires Typed(p) && Format(p, cap).Good? && !Legible(Canon(p).meta)
    ensures Document(Format(p, cap).value) == Fail(Malformed) && ParseProfile(Format(p, cap).value, p.mdio) == Fail(Malformed)
  {
    hide ParseProfile, Named, TextOf, Document, Root, Neat, DeviceDoc, Sound, MetaValid, LastOnly, RegIds;
    ValidIsNamed(p);
    ValidLists(p);
    var c := Canon(p);
    MetaCounts(p.meta, p.count);
    IllegibleIsNew(p);
    RespelledFits(c.meta, c.count);
    var q := p.(meta := Respelled(p.meta));
    SameValidity(p, q);
    ValidIsNamed(q);
    CanonIsSound(q);
    DeviceBroken(c.meta);
    RootBroken(c, Canon(q));
    TextBroken(c);
    NoDocument(TextOf(c), p.mdio);
  }

  lemma IllegibleIsNew(p: Profile)
    requires p.count <= 256 && IdValid(p.name) && !Legible(Canon(p).meta)
    ensures p.meta.version != 0
  {
    if p.meta.version == 0 {
      IdSpellable(p.name);
    }
  }

  lemma SameValidity(p: Profile, q: Profile)
    requires Typed(p) && Validate(p) == Ok && q == p.(meta := q.meta) && MetaValid(q.meta, p.count)
    ensures Typed(q) && Validate(q) == Ok
  {
    hide MetaValid, MdioConfig.Validate, Text;
  }

  /** The exact condition under which printing is undone by reading, and what is read then. */
  lemma ReadsBack(p: Profile, cap: nat)
    requires Typed(p) && Format(p, cap).Good?
    ensures p.count <= 256
    ensures ParseProfile(Format(p, cap).value, p.mdio) == if Legible(Canon(p).meta) then Good(Canon(p)) else Fail(Malformed)
  {
    hide ParseProfile, Typed, Legible, Canon, Format;
    FormattedIsValid(p, cap);
    if Legible(Canon(p).meta) {
      LegibleReadsBack(p, cap);
    } else {
      IllegibleRefused(p, cap);
    }
  }

  lemma FormattedIsValid(p: Profile, cap: nat)
    requires Typed(p) && Format(p, cap).Good?
    ensures Validate(p) == Ok && IdValid(p.name) && p.count <= 256
  {
    hide Validate, IdValid, Canon, Speakable, TextOf, Named, Typed;
    ValidIsNamed(p);
  }
}
