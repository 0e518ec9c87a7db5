/**
 The version 2 printer as it runs: section after section into a bounded buffer, proved against the text of the
 canonical form.
 */
module ProfileWriter {
  import opened Words
  import opened Statuses
  import opened Tokens
  import opened JsonText
  import opened JsonDocs
  import opened JsonTables
  import opened JsonWriter
  import opened ProfileModel
  import opened ProfileParser
  import opened ProfilePrinter
  import opened ProfileCodec
  import opened ProfileRoundTrip
  import MdioConfig

  /** Everything on one line. */
  const INLINE := Layout([], [BLANK], [])

  /** What the validator has established of a profile that is printed: every register has an id that can be shown. */
  ghost predicate Ready(p: Profile) {
    && p.count <= 256 && Named(Canon(p)) && (p.meta.version != 0 ==> |p.meta.ids| == p.count)
    && (forall i :: 0 <= i < |p.polled| ==> p.polled[i] < p.count) && (forall i :: 0 <= i < |p.white| ==> p.white[i].reg < p.count)
    && (forall i :: 0 <= i < |p.deny| ==> p.deny[i].reg < p.count) && (forall i :: 0 <= i < |p.seeds| ==> p.seeds[i].reg < p.count)
    && forall reg :: 0 <= reg < p.count ==> Showable(Canon(p).meta.ids[reg])
  }

  /** The id a register is printed under. */
  function Id(p: Profile, reg: nat): (id: Bytes)
    requires Ready(p) && reg < p.count
    ensures id == Canon(p).meta.ids[reg] && Showable(id)
  {
    hide RegId, LastOnly, Text, Showable;
    if p.meta.version != 0 then p.meta.ids[reg] else RegId(reg)
  }

  lemma ValidIsReady(p: Profile)
    requires Typed(p) && Validate(p) == Ok
    ensures Ready(p)
  {
    hide Validate, Typed, LastOnly, RegId, RegIds, Text, Named, Showable, IdsValid, IdsSize, RulesFit, MdioConfig.Distinct, MdioConfig.SettingRegs,
      MetaValid;
    ValidIsNamed(p);
    ValidLists(p);
    ValidRegs(p.white, p.count, p.mdio, p.maxValue);
    ValidRegs(p.deny, p.count, p.mdio, p.maxValue);
    MetaCounts(p.meta, p.count);
    CanonIds(p);
  }

  lemma ValidRegs(rules: seq<Rule>, count: nat, mdio: bool, most: nat)
    requires RulesFit(rules, count, mdio, most)
    ensures forall i :: 0 <= i < |rules| ==> rules[i].reg < count
  {
    forall i | 0 <= i < |rules| ensures rules[i].reg < count { assert RuleFits(rules[i], count, mdio, most); }
  }

  lemma CanonIds(p: Profile)
    requires p.count <= 256 && MetaValid(p.meta, p.count)
    ensures |Canon(p).meta.ids| == p.count && forall reg :: 0 <= reg < p.count ==> Showable(Canon(p).meta.ids[reg])
  {
    hide LastOnly, RegId, RegIds, Text, IdsSize, ClassValid, RegisterMapName, ViewName, IdValid, Showable;
    var ids := Canon(p).meta.ids;
    if p.meta.version == 0 {
      RegIdsValid(p.count);
    }
    forall reg | 0 <= reg < p.count ensures Showable(ids[reg]) { IdSpellable(ids[reg]); }
  }

  // ----- Sections without lists

  method Device(w: Writer, p: Profile)
    requires w.Valid() && p.count <= 256
    modifies w
    ensures w.Valid() && w.meant == old(w.meant) + Show(DeviceDoc(Canon(p).meta))
    ensures var m := Canon(p).meta;
      w.mute == (old(w.mute) || !Showable(m.model) || !Showable(m.kind) || !Showable(m.vendor) || !Showable(m.caption))
  {
    hide Show, DeviceDoc, Text, LastOnly, RegIds, Showable;
    if p.meta.version != 0 {
      About(w, p.meta.model, p.meta.kind, p.meta.vendor, p.meta.caption);
    } else {
      About(w, p.name, if p.mdio then Text("phy") else Text("generic"), [], []);
    }
    DeviceSame(p);
  }

  lemma DeviceSame(p: Profile)
    requires p.count <= 256
    ensures var m := Canon(p).meta;
      DeviceDoc(m) == DeviceDoc(Told(m.model, m.kind, m.vendor, m.caption))
  {
    hide DeviceKeys, Canon, Rows;
  }

  /** Metadata with these texts. */
  function Told(model: Bytes, kind: Bytes, vendor: Bytes, caption: Bytes): Meta { Meta(2, vendor, model, kind, caption, [], [], []) }

  method About(w: Writer, model: Bytes, kind: Bytes, vendor: Bytes, caption: Bytes)
    requires w.Valid()
    modifies w
    ensures w.Valid() && w.meant == old(w.meant) + Show(DeviceDoc(Told(model, kind, vendor, caption)))
    ensures w.mute == (old(w.mute) || !Showable(model) || !Showable(kind) || !Showable(vendor) || !Showable(caption))
  {
    hide DeviceKeys, Show, Started, Showable, Rows;
    var keys := DeviceKeys();
    ghost var before := w.meant;
    w.Start(true, INLINE);
    NoRows(keys);
    ghost var slots: seq<Slot> := [];
    w.WordSlot(keys, 0, true, model, true, INLINE, before, slots);
    slots := slots + [Slot(0, true, Word(model))];
    w.WordSlot(keys, 2, true, kind, false, INLINE, before, slots);
    slots := slots + [Slot(2, true, Word(kind))];
    w.WordSlot(keys, 1, vendor != [], vendor, false, INLINE, before, slots);
    slots := slots + [Slot(1, vendor != [], Word(vendor))];
    w.WordSlot(keys, 3, caption != [], caption, false, INLINE, before, slots);
    slots := slots + [Slot(3, caption != [], Word(caption))];
    w.Seal(keys, INLINE, before, slots);
    Four(Slot(0, true, Word(model)), Slot(2, true, Word(kind)), Slot(1, vendor != [], Word(vendor)), Slot(3, caption != [], Word(caption)));
    EmptyShowable();
  }

  lemma Two<T>(a: T, b: T)
    ensures [] + [a] + [b] == [a, b]
  {
  }

  lemma Three<T>(a: T, b: T, c: T)
    ensures [] + [a] + [b] + [c] == [a, b, c]
  {
  }

  lemma Four<T>(a: T, b: T, c: T, d: T)
    ensures [] + [a] + [b] + [c] + [d] == [a, b, c, d]
  {
  }

  lemma EmptyShowable()
    ensures Showable([])
  {
  }

  lemma HexShowable(v: nat, digits: nat)
    ensures Showable(HexText(v, digits))
  {
  }

  lemma BusShowable(mdio: bool)
    ensures Showable(BusName(mdio)) && Showable(Controller(mdio)) && Showable(Driver(mdio))
  {
    hide Text, Showable;
    ShowableText(if mdio then "mdio" else "i2c");
    ShowableText(if mdio then "pl_mdio_0" else "pl_i2c_0");
    ShowableText(if mdio then "bvstk_mdio_bridge" else "bvstk_i2c_bridge");
  }

  lemma ShowableText(s: string)
    requires Clean(s)
    ensures Showable(Text(s))
  {
  }

  method Transport(w: Writer, address: u8, mdio: bool)
    requires w.Valid()
    modifies w
    ensures w.Valid() && w.meant == old(w.meant) + Show(TransportDoc(address, mdio)) && w.mute == old(w.mute)
  {
    hide TransportKeys, Show, Started, Showable, Rows, BusName, Controller, HexText;
    BusShowable(mdio);
    HexShowable(address, 2);
    var keys := TransportKeys();
    ghost var before := w.meant;
    w.Start(true, INLINE);
    NoRows(keys);
    ghost var slots: seq<Slot> := [];
    w.WordSlot(keys, 0, true, BusName(mdio), true, INLINE, before, slots);
    slots := slots + [Slot(0, true, Word(BusName(mdio)))];
    w.WordSlot(keys, 1, true, Controller(mdio), false, INLINE, before, slots);
    slots := slots + [Slot(1, true, Word(Controller(mdio)))];
    w.WordSlot(keys, 2, true, HexText(address, 2), false, INLINE, before, slots);
    slots := slots + [Slot(2, true, Hex(address, 2))];
    w.PlainSlot(keys, 3, !mdio, Doc.Number(7), false, INLINE, before, slots);
    slots := slots + [Slot(3, !mdio, Doc.Number(7))];
    w.Seal(keys, INLINE, before, slots);
    Four(Slot(0, true, Word(BusName(mdio))), Slot(1, true, Word(Controller(mdio))), Slot(2, true, Hex(address, 2)),
         Slot(3, !mdio, Doc.Number(7)));
  }

  // ----- Lists

  lemma ItemsAppend(docs: seq<Doc>, d: Doc)
    ensures Items(docs + [d]) == Items(docs) + [Entry([], d)]
  {
    assert forall i :: 0 <= i < |docs| ==> (docs + [d])[i] == docs[i];
  }

  lemma NoItems()
    ensures Items([]) == []
  {
  }

  /** The polled registers in their order. */
  method Order(w: Writer, p: Profile)
    requires w.Valid() && Ready(p)
    modifies w
    ensures w.Valid() && w.mute == old(w.mute)
    ensures w.meant == old(w.meant) + Show(Brackets(Items(OrderDocs(p.polled, Canon(p).meta.ids))))
  {
    hide Show, Started, Items, Ready, Canon, Showable, Quoted;
    ReadyRegs(p);
    ghost var ids, before := Canon(p).meta.ids, w.meant;
    ghost var docs := OrderDocs(p.polled, ids);
    ghost var es: seq<Entry> := [];
    w.Start(false, INLINE);
    var i := 0;
    NoItems();
    while i < |p.polled|
      invariant 0 <= i <= |p.polled| && w.Valid() && w.mute == old(w.mute)
      invariant es == Items(docs[..i]) && |es| == i && w.At(before, false, es, INLINE)
    {
      ghost var here := w.meant;
      w.Lead(false, i == 0, [], INLINE);
      w.Quote(Id(p, p.polled[i]));
      WordShown(ids[p.polled[i]]);
      w.Count(false, Entry([], docs[i]), INLINE, before, es, here);
      es := es + [Entry([], docs[i])];
      ItemsAppend(docs[..i], docs[i]);
      assert docs[..i] + [docs[i]] == docs[..i + 1];
      i := i + 1;
    }
    assert docs[..i] == docs;
    w.Finish(false, |p.polled| == 0, INLINE, before, es);
  }

  /** The registers a ready profile names. */
  lemma ReadyRegs(p: Profile)
    requires Ready(p)
    ensures p.count <= 256 && |Canon(p).meta.ids| == p.count && Named(Canon(p))
    ensures (forall i :: 0 <= i < |p.polled| ==> p.polled[i] < p.count) && (forall i :: 0 <= i < |p.white| ==> p.white[i].reg < p.count)
    ensures (forall i :: 0 <= i < |p.deny| ==> p.deny[i].reg < p.count) && (forall i :: 0 <= i < |p.seeds| ==> p.seeds[i].reg < p.count)
  {
    hide Canon, Showable;
    CanonKeeps(p);
  }

  lemma WordShown(s: Bytes)
    ensures Show(Word(s)) == Quoted(s)
  {
  }

  /** The value of a member or an item that is printed by a method of its own. */
  method Options(w: Writer, p: Profile)
    requires w.Valid() && Ready(p)
    modifies w
    ensures w.Valid() && w.mute == old(w.mute)
    ensures w.meant == old(w.meant) + Show(OptionsDoc(Canon(p)))
  {
    hide OptionKeys, Show, Started, Showable, Rows, HexText, Ready, Canon, Items, OrderDocs;
    ReadyRegs(p);
    CanonKeeps(p);
    var keys := OptionKeys();
    ghost var before := w.meant;
    w.Start(true, INLINE);
    NoRows(keys);
    ghost var slots: seq<Slot> := [];
    if p.mdio {
      w.PlainSlot(keys, 2, true, Flag(p.autopoll), true, INLINE, before, slots);
      slots := slots + [Slot(2, true, Flag(p.autopoll))];
      w.PlainSlot(keys, 4, true, Doc.Number(p.regDelay), false, INLINE, before, slots);
      slots := slots + [Slot(4, true, Doc.Number(p.regDelay))];
      w.PlainSlot(keys, 5, true, Doc.Number(p.cycleDelay), false, INLINE, before, slots);
      slots := slots + [Slot(5, true, Doc.Number(p.cycleDelay))];
      ghost var here := w.meant;
      ghost var order := Brackets(Items(OrderDocs(p.polled, Canon(p).meta.ids)));
      w.Lead(true, false, keys[3], INLINE);
      Order(w, p);
      w.CountSlot(keys, 3, order, INLINE, before, slots, here);
      slots := slots + [Slot(3, true, order)];
      w.Seal(keys, INLINE, before, slots);
      Four(Slot(2, true, Flag(p.autopoll)), Slot(4, true, Doc.Number(p.regDelay)), Slot(5, true, Doc.Number(p.cycleDelay)), Slot(3, true, order));
    } else {
      HexShowable(p.maxValue, 2);
      w.WordSlot(keys, 0, true, HexText(p.maxValue, 2), true, INLINE, before, slots);
      slots := slots + [Slot(0, true, Hex(p.maxValue, 2))];
      w.PlainSlot(keys, 1, true, Flag(true), false, INLINE, before, slots);
      slots := slots + [Slot(1, true, Flag(true))];
      w.Seal(keys, INLINE, before, slots);
      Two(Slot(0, true, Hex(p.maxValue, 2)), Slot(1, true, Flag(true)));
    }
  }

  method Protocol(w: Writer, p: Profile)
    requires w.Valid() && Ready(p)
    modifies w
    ensures w.Valid() && w.mute == old(w.mute) && w.meant == old(w.meant) + Show(ProtocolDoc(Canon(p)))
  {
    hide ProtocolKeys, Show, Started, Showable, Rows, Ready, Canon, Driver, OptionsDoc;
    ReadyRegs(p);
    CanonKeeps(p);
    BusShowable(p.mdio);
    var keys := ProtocolKeys();
    ghost var before, options := w.meant, OptionsDoc(Canon(p));
    w.Start(true, INLINE);
    NoRows(keys);
    w.WordSlot(keys, 0, true, Driver(p.mdio), true, INLINE, before, []);
    ghost var slots := [] + [Slot(0, true, Word(Driver(p.mdio)))];
    ghost var here := w.meant;
    w.Lead(true, false, keys[1], INLINE);
    Options(w, p);
    w.CountSlot(keys, 1, options, INLINE, before, slots, here);
    slots := slots + [Slot(1, true, options)];
    w.Seal(keys, INLINE, before, slots);
    Two(Slot(0, true, Word(Driver(p.mdio))), Slot(1, true, options));
  }

  /** A mode that names the driver. */
  method ByDriver(w: Writer)
    requires w.Valid()
    modifies w
    ensures w.Valid() && w.mute == old(w.mute) && w.meant == old(w.meant) + Show(DriverDoc())
  {
    hide ModeKeys, Show, Started, Showable, Rows, Text;
    ShowableText("driver");
    var keys := ModeKeys();
    ghost var before := w.meant;
    w.Start(true, INLINE);
    NoRows(keys);
    w.WordSlot(keys, 0, true, Text("driver"), true, INLINE, before, []);
    w.Seal(keys, INLINE, before, [] + [Slot(0, true, Word(Text("driver")))]);
    One(Slot(0, true, Word(Text("driver"))));
  }

  lemma One<T>(a: T)
    ensures [] + [a] == [a]
  {
  }

  method Register(w: Writer, mdio: bool)
    requires w.Valid()
    modifies w
    ensures w.Valid() && w.mute == old(w.mute) && w.meant == old(w.meant) + Show(RegisterDoc(mdio))
  {
    hide ResourceKeys, Show, Started, Showable, Rows, Text, DriverDoc, HexText;
    ShowableText("rw");
    HexShowable(Maximum(mdio), Digits(mdio));
    var keys := ResourceKeys();
    ghost var before := w.meant;
    w.Start(true, INLINE);
    NoRows(keys);
    ghost var slots: seq<Slot> := [];
    w.PlainSlot(keys, 3, true, Doc.Number(Width(mdio)), true, INLINE, before, slots);
    slots := slots + [Slot(3, true, Doc.Number(Width(mdio)))];
    w.WordSlot(keys, 4, true, Text("rw"), false, INLINE, before, slots);
    slots := slots + [Slot(4, true, Word(Text("rw")))];
    w.WordSlot(keys, 5, true, HexText(Maximum(mdio), Digits(mdio)), false, INLINE, before, slots);
    slots := slots + [Slot(5, true, Hex(Maximum(mdio), Digits(mdio)))];
    ghost var here := w.meant;
    w.Lead(true, false, keys[6], INLINE);
    ByDriver(w);
    w.CountSlot(keys, 6, DriverDoc(), INLINE, before, slots, here);
    slots := slots + [Slot(6, true, DriverDoc())];
    here := w.meant;
    w.Lead(true, false, keys[7], INLINE);
    ByDriver(w);
    w.CountSlot(keys, 7, DriverDoc(), INLINE, before, slots, here);
    slots := slots + [Slot(7, true, DriverDoc())];
    w.Seal(keys, INLINE, before, slots);
    Five(Slot(3, true, Doc.Number(Width(mdio))), Slot(4, true, Word(Text("rw"))), Slot(5, true, Hex(Maximum(mdio), Digits(mdio))),
         Slot(6, true, DriverDoc()), Slot(7, true, DriverDoc()));
  }

  lemma Five<T>(a: T, b: T, c: T, d: T, e: T)
    ensures [] + [a] + [b] + [c] + [d] + [e] == [a, b, c, d, e]
  {
  }

  method Defaults(w: Writer, mdio: bool)
    requires w.Valid()
    modifies w
    ensures w.Valid() && w.mute == old(w.mute) && w.meant == old(w.meant) + Show(DefaultsDoc(mdio))
  {
    hide DefaultsKeys, Show, Started, Rows, RegisterDoc;
    var keys := DefaultsKeys();
    ghost var before := w.meant;
    w.Start(true, INLINE);
    NoRows(keys);
    ghost var here := w.meant;
    w.Lead(true, true, keys[0], INLINE);
    Register(w, mdio);
    w.CountSlot(keys, 0, RegisterDoc(mdio), INLINE, before, [], here);
    w.Seal(keys, INLINE, before, [] + [Slot(0, true, RegisterDoc(mdio))]);
    One(Slot(0, true, RegisterDoc(mdio)));
  }

  // ----- Resources, rules and seeds

  method Resource(w: Writer, p: Profile, reg: nat)
    requires w.Valid() && Ready(p) && reg < p.count
    modifies w
    ensures w.Valid() && w.mute == old(w.mute) && w.meant == old(w.meant) + Show(ResourceDoc(Canon(p).meta.ids[reg], reg))
  {
    hide ResourceKeys, Show, Started, Showable, Rows, Text, HexText, Ready, Canon;
    ShowableText("register");
    HexShowable(reg, 2);
    var keys, id := ResourceKeys(), Id(p, reg);
    ghost var before := w.meant;
    w.Start(true, INLINE);
    NoRows(keys);
    ghost var slots: seq<Slot> := [];
    w.WordSlot(keys, 0, true, id, true, INLINE, before, slots);
    slots := slots + [Slot(0, true, Word(id))];
    w.WordSlot(keys, 1, true, Text("register"), false, INLINE, before, slots);
    slots := slots + [Slot(1, true, Word(Text("register")))];
    w.WordSlot(keys, 2, true, HexText(reg, 2), false, INLINE, before, slots);
    slots := slots + [Slot(2, true, Hex(reg, 2))];
    w.Seal(keys, INLINE, before, slots);
    Three(Slot(0, true, Word(id)), Slot(1, true, Word(Text("register"))), Slot(2, true, Hex(reg, 2)));
  }

  /** One resource to a line. */
  const LISTED := Layout(LINE4, LINE4, LINE2)

  method Resources(w: Writer, p: Profile)
    requires w.Valid() && Ready(p)
    modifies w
    ensures w.Valid() && w.mute == old(w.mute) && w.meant == old(w.meant) + Show(ResourcesDoc(Canon(p).meta.ids))
  {
    hide Show, Started, Items, Ready, Canon, ResourceDoc;
    ReadyRegs(p);
    ghost var ids, before := Canon(p).meta.ids, w.meant;
    ghost var docs := ResourceDocs(ids);
    ghost var es: seq<Entry> := [];
    w.Start(false, LISTED);
    var i := 0;
    NoItems();
    while i < p.count
      invariant 0 <= i <= p.count && w.Valid() && w.mute == old(w.mute)
      invariant es == Items(docs[..i]) && |es| == i && w.At(before, false, es, LISTED)
    {
      ghost var here := w.meant;
      w.Lead(false, i == 0, [], LISTED);
      Resource(w, p, i);
      w.Count(false, Entry([], docs[i]), LISTED, before, es, here);
      es := es + [Entry([], docs[i])];
      ItemsAppend(docs[..i], docs[i]);
      assert docs[..i] + [docs[i]] == docs[..i + 1];
      i := i + 1;
    }
    assert docs[..i] == docs;
    w.Finish(false, p.count == 0, LISTED, before, es);
  }

  /** The values a rule covers. */
  method Match(w: Writer, r: ProfileModel.Rule, mdio: bool)
    requires w.Valid()
    modifies w
    ensures w.Valid() && w.mute == old(w.mute) && w.meant == old(w.meant) + Show(MatchDoc(r, mdio))
  {
    hide MatchKeys, Show, Started, Showable, Rows, HexText;
    HexShowable(r.val, Digits(mdio));
    HexShowable(r.mask, Digits(mdio));
    var keys := MatchKeys();
    ghost var before := w.meant;
    w.Start(true, INLINE);
    NoRows(keys);
    w.WordSlot(keys, 0, true, HexText(r.val, Digits(mdio)), true, INLINE, before, []);
    ghost var slots := [] + [Slot(0, true, Hex(r.val, Digits(mdio)))];
    w.WordSlot(keys, 1, true, HexText(r.mask, Digits(mdio)), false, INLINE, before, slots);
    slots := slots + [Slot(1, true, Hex(r.mask, Digits(mdio)))];
    w.Seal(keys, INLINE, before, slots);
    Two(Slot(0, true, Hex(r.val, Digits(mdio))), Slot(1, true, Hex(r.mask, Digits(mdio))));
  }

  method Rule(w: Writer, r: ProfileModel.Rule, p: Profile)
    requires w.Valid() && Ready(p) && r.reg < p.count
    modifies w
    ensures w.Valid() && w.mute == old(w.mute) && w.meant == old(w.meant) + Show(RuleDoc(r, Canon(p).meta.ids[r.reg], p.mdio))
  {
    hide RuleKeys, Show, Started, Showable, Rows, MatchDoc, Ready, Canon;
    var keys, id := RuleKeys(), Id(p, r.reg);
    ghost var before := w.meant;
    w.Start(true, INLINE);
    NoRows(keys);
    w.WordSlot(keys, 0, true, id, true, INLINE, before, []);
    ghost var slots := [] + [Slot(0, true, Word(id))];
    ghost var here := w.meant;
    w.Lead(true, false, keys[1], INLINE);
    Match(w, r, p.mdio);
    w.CountSlot(keys, 1, MatchDoc(r, p.mdio), INLINE, before, slots, here);
    slots := slots + [Slot(1, true, MatchDoc(r, p.mdio))];
    w.Seal(keys, INLINE, before, slots);
    Two(Slot(0, true, Word(id)), Slot(1, true, MatchDoc(r, p.mdio)));
  }

  method Rules(w: Writer, rules: seq<ProfileModel.Rule>, p: Profile)
    requires w.Valid() && Ready(p) && forall i :: 0 <= i < |rules| ==> rules[i].reg < p.count
    modifies w
    ensures w.Valid() && w.mute == old(w.mute) && |Canon(p).meta.ids| == p.count
    ensures w.meant == old(w.meant) + Show(Brackets(Items(RuleDocs(rules, Canon(p).meta.ids, p.mdio))))
  {
    hide Show, Started, Items, Ready, Canon, RuleDoc;
    ReadyRegs(p);
    ghost var ids, before := Canon(p).meta.ids, w.meant;
    ghost var docs := RuleDocs(rules, ids, p.mdio);
    ghost var es: seq<Entry> := [];
    w.Start(false, INLINE);
    var i := 0;
    NoItems();
    while i < |rules|
      invariant 0 <= i <= |rules| && w.Valid() && w.mute == old(w.mute)
      invariant es == Items(docs[..i]) && |es| == i && w.At(before, false, es, INLINE)
    {
      ghost var here := w.meant;
      w.Lead(false, i == 0, [], INLINE);
      Rule(w, rules[i], p);
      w.Count(false, Entry([], docs[i]), INLINE, before, es, here);
      es := es + [Entry([], docs[i])];
      ItemsAppend(docs[..i], docs[i]);
      assert docs[..i] + [docs[i]] == docs[..i + 1];
      i := i + 1;
    }
    assert docs[..i] == docs;
    w.Finish(false, |rules| == 0, INLINE, before, es);
  }

  // ----- Policy

  lemma ModeShowable(black: bool)
    ensures Showable(ModeName(black))
  {
    hide Text, Showable;
    ShowableText("blacklist");
    ShowableText("whitelist");
  }

  lemma ListEmpty()
    ensures Show(Brackets([])) == [LBRACKET, RBRACKET]
  {
  }

  /** Nothing is kept from being read. */
  method ReadPolicy(w: Writer)
    requires w.Valid()
    modifies w
    ensures w.Valid() && w.mute == old(w.mute) && w.meant == old(w.meant) + Show(ReadDoc())
  {
    hide PolicyEntryKeys, Show, Started, Showable, Rows, ModeName;
    ModeShowable(true);
    ListEmpty();
    var keys := PolicyEntryKeys();
    ghost var before := w.meant;
    w.Start(true, INLINE);
    NoRows(keys);
    w.WordSlot(keys, 0, true, ModeName(true), true, INLINE, before, []);
    ghost var slots := [] + [Slot(0, true, Word(ModeName(true)))];
    ghost var here := w.meant;
    w.Lead(true, false, keys[1], INLINE);
    w.Append([LBRACKET, RBRACKET]);
    w.CountSlot(keys, 1, Brackets([]), INLINE, before, slots, here);
    slots := slots + [Slot(1, true, Brackets([]))];
    w.Seal(keys, INLINE, before, slots);
    Two(Slot(0, true, Word(ModeName(true))), Slot(1, true, Brackets([])));
  }

  /** The mode, the list in force, and the other one. */
  method WritePolicy(w: Writer, p: Profile)
    requires w.Valid() && Ready(p)
    modifies w
    ensures w.Valid() && w.mute == old(w.mute) && w.meant == old(w.meant) + Show(WriteDoc(Canon(p)))
  {
    hide PolicyEntryKeys, Show, Started, Showable, Rows, ModeName, Ready, Canon, AllowedDoc, DeniedDoc;
    ReadyRegs(p);
    CanonKeeps(p);
    ModeShowable(p.black);
    var keys := PolicyEntryKeys();
    ghost var before, c := w.meant, Canon(p);
    ghost var first, second := if p.black then DeniedDoc(c) else AllowedDoc(c), if p.black then AllowedDoc(c) else DeniedDoc(c);
    w.Start(true, INLINE);
    NoRows(keys);
    w.WordSlot(keys, 0, true, ModeName(p.black), true, INLINE, before, []);
    ghost var slots := [] + [Slot(0, true, Word(ModeName(p.black)))];
    var which := 0;
    while which < 2
      invariant 0 <= which <= 2 && w.Valid() && w.mute == old(w.mute) && w.Building(before, keys, slots, INLINE) && slots != []
      invariant slots == [Slot(0, true, Word(ModeName(p.black)))] + [Slot(1, true, first), Slot(2, true, second)][..which]
    {
      var deny := if which == 0 then p.black else !p.black;
      ghost var here, d := w.meant, if which == 0 then first else second;
      w.Lead(true, false, keys[1 + which], INLINE);
      RuleList(w, deny, p);
      w.CountSlot(keys, 1 + which, d, INLINE, before, slots, here);
      slots := slots + [Slot(1 + which, true, d)];
      which := which + 1;
    }
    w.Seal(keys, INLINE, before, slots);
    assert slots == [Slot(0, true, Word(ModeName(p.black))), Slot(1, true, first), Slot(2, true, second)];
  }

  method RuleList(w: Writer, deny: bool, p: Profile)
    requires w.Valid() && Ready(p)
    modifies w
    ensures w.Valid() && w.mute == old(w.mute) && Named(Canon(p))
    ensures w.meant == old(w.meant) + Show(if deny then DeniedDoc(Canon(p)) else AllowedDoc(Canon(p)))
  {
    hide Show, Ready, Canon, RuleDocs, Items;
    ReadyRegs(p);
    CanonKeeps(p);
    Rules(w, if deny then p.deny else p.white, p);
  }

  method Policy(w: Writer, p: Profile)
    requires w.Valid() && Ready(p)
    modifies w
    ensures w.Valid() && w.mute == old(w.mute) && w.meant == old(w.meant) + Show(PolicyDoc(Canon(p)))
  {
    hide PolicyKeys, Show, Started, Rows, Ready, Canon, ReadDoc, WriteDoc;
    ReadyRegs(p);
    var keys := PolicyKeys();
    ghost var before, write := w.meant, WriteDoc(Canon(p));
    w.Start(true, INLINE);
    NoRows(keys);
    ghost var here := w.meant;
    w.Lead(true, true, keys[0], INLINE);
    ReadPolicy(w);
    w.CountSlot(keys, 0, ReadDoc(), INLINE, before, [], here);
    ghost var slots := [] + [Slot(0, true, ReadDoc())];
    here := w.meant;
    w.Lead(true, false, keys[1], INLINE);
    WritePolicy(w, p);
    w.CountSlot(keys, 1, write, INLINE, before, slots, here);
    slots := slots + [Slot(1, true, write)];
    w.Seal(keys, INLINE, before, slots);
    Two(Slot(0, true, ReadDoc()), Slot(1, true, write));
  }

  // ----- Seeds

  method Seed(w: Writer, s: Setting, p: Profile)
    requires w.Valid() && Ready(p) && s.reg < p.count
    modifies w
    ensures w.Valid() && w.mute == old(w.mute) && w.meant == old(w.meant) + Show(SeedDoc(s, Canon(p).meta.ids[s.reg], p.mdio))
  {
    hide SeedKeys, Show, Started, Showable, Rows, HexText, Ready, Canon;
    HexShowable(s.val, Digits(p.mdio));
    var keys, id := SeedKeys(), Id(p, s.reg);
    ghost var before := w.meant;
    w.Start(true, INLINE);
    NoRows(keys);
    w.WordSlot(keys, 0, true, id, true, INLINE, before, []);
    ghost var slots := [] + [Slot(0, true, Word(id))];
    w.WordSlot(keys, 1, true, HexText(s.val, Digits(p.mdio)), false, INLINE, before, slots);
    slots := slots + [Slot(1, true, Hex(s.val, Digits(p.mdio)))];
    w.Seal(keys, INLINE, before, slots);
    Two(Slot(0, true, Word(id)), Slot(1, true, Hex(s.val, Digits(p.mdio))));
  }

  /** Whether a later seed for the same register overwrites the `i`-th. */
  method Overwritten(seeds: seq<Setting>, i: nat) returns (yes: bool)
    requires i < |seeds|
    ensures yes == (seeds[i].reg in MdioConfig.SettingRegs(seeds[i + 1..]))
  {
    hide MdioConfig.SettingRegs;
    var j := i + 1;
    while j < |seeds| && seeds[j].reg != seeds[i].reg
      invariant i < j <= |seeds| && forall k :: i < k < j ==> seeds[k].reg != seeds[i].reg
    {
      j := j + 1;
    }
    ghost var regs := MdioConfig.SettingRegs(seeds[i + 1..]);
    assert forall k :: 0 <= k < |regs| ==> regs[k] == seeds[i + 1 + k].reg;
    yes := j < |seeds|;
    if yes {
      assert regs[j - i - 1] == seeds[i].reg;
    }
  }

  /** What is printed of the seeds. */
  ghost function Kept(seeds: seq<Setting>, mdio: bool): seq<Setting> { if mdio then seeds else LastOnly(seeds) }

  lemma KeptOn(seeds: seq<Setting>, i: nat, mdio: bool)
    requires i < |seeds|
    ensures var skipped := !mdio && seeds[i].reg in MdioConfig.SettingRegs(seeds[i + 1..]);
      Kept(seeds[i..], mdio) == (if skipped then [] else [seeds[i]]) + Kept(seeds[i + 1..], mdio)
  {
    assert seeds[i..][1..] == seeds[i + 1..];
  }

  method NextSeed(w: Writer, s: Setting, p: Profile, first: bool, ghost before: Bytes, ghost es: seq<Entry>)
    requires w.Valid() && Ready(p) && s.reg < p.count && w.At(before, false, es, INLINE) && first == (es == [])
    modifies w
    ensures w.Valid() && w.mute == old(w.mute)
    ensures w.At(before, false, es + [Entry([], SeedDoc(s, Canon(p).meta.ids[s.reg], p.mdio))], INLINE)
  {
    hide Show, Started, SeedDoc, Ready, Canon;
    ReadyRegs(p);
    ghost var here := w.meant;
    w.Lead(false, first, [], INLINE);
    Seed(w, s, p);
    w.Count(false, Entry([], SeedDoc(s, Canon(p).meta.ids[s.reg], p.mdio)), INLINE, before, es, here);
  }

  method Seeds(w: Writer, p: Profile)
    requires w.Valid() && Ready(p)
    modifies w
    ensures w.Valid() && w.mute == old(w.mute) && Named(Canon(p))
    ensures w.meant == old(w.meant) + Show(Brackets(Items(SeedDocs(Canon(p).seeds, Canon(p).meta.ids, p.mdio))))
  {
    hide Show, Started, Items, Ready, SeedDoc, LastOnly, MdioConfig.SettingRegs, RegIds, Text, Kept;
    ReadyRegs(p);
    CanonKeeps(p);
    ghost var ids, before := Canon(p).meta.ids, w.meant;
    ghost var kept: seq<Setting>, docs: seq<Doc>, es: seq<Entry> := [], [], [];
    w.Start(false, INLINE);
    var i, n := 0, 0;
    NoItems();
    assert p.seeds[0..] == p.seeds;
    while i < |p.seeds|
      invariant 0 <= i <= |p.seeds| && w.Valid() && w.mute == old(w.mute)
      invariant Kept(p.seeds, p.mdio) == kept + Kept(p.seeds[i..], p.mdio) && n == |kept|
      invariant forall k :: 0 <= k < |kept| ==> kept[k].reg < p.count
      invariant docs == SeedDocs(kept, ids, p.mdio) && es == Items(docs) && |es| == n && w.At(before, false, es, INLINE)
    {
      KeptOn(p.seeds, i, p.mdio);
      var skip := false;
      if !p.mdio {
        skip := Overwritten(p.seeds, i);
      }
      if !skip {
        var s := p.seeds[i];
        ghost var d := SeedDoc(s, ids[s.reg], p.mdio);
        NextSeed(w, s, p, n == 0, before, es);
        ItemsAppend(docs, d);
        SeedDocsAppend(kept, s, ids, p.mdio);
        kept, docs, es, n := kept + [s], docs + [d], es + [Entry([], d)], n + 1;
      }
      i := i + 1;
    }
    KeptNone(p.seeds, p.mdio);
    w.Finish(false, n == 0, INLINE, before, es);
    assert kept + [] == kept;
    CanonSeeds(p);
  }

  lemma KeptNone(seeds: seq<Setting>, mdio: bool)
    ensures Kept(seeds[|seeds|..], mdio) == []
  {
    assert seeds[|seeds|..] == [];
  }

  lemma CanonSeeds(p: Profile)
    requires p.count <= 256
    ensures Canon(p).seeds == Kept(p.seeds, p.mdio)
  {
    hide LastOnly, RegIds, Text;
  }

  lemma SeedDocsAppend(seeds: seq<Setting>, s: Setting, ids: seq<Bytes>, mdio: bool)
    requires (forall i :: 0 <= i < |seeds| ==> seeds[i].reg < |ids|) && s.reg < |ids|
    ensures SeedDocs(seeds + [s], ids, mdio) == SeedDocs(seeds, ids, mdio) + [SeedDoc(s, ids[s.reg], mdio)]
  {
    hide SeedDoc;
  }

  method Settings(w: Writer, p: Profile)
    requires w.Valid() && Ready(p)
    modifies w
    ensures w.Valid() && w.mute == old(w.mute) && w.meant == old(w.meant) + Show(SettingsDoc(Canon(p)))
  {
    hide SettingsKeys, Show, Started, Rows, Ready, Canon, SeedDocs, Items;
    ReadyRegs(p);
    CanonKeeps(p);
    ListEmpty();
    var keys := SettingsKeys();
    ghost var before, seeds := w.meant, Brackets(Items(SeedDocs(Canon(p).seeds, Canon(p).meta.ids, p.mdio)));
    w.Start(true, INLINE);
    NoRows(keys);
    ghost var here := w.meant;
    w.Lead(true, true, keys[1], INLINE);
    w.Append([LBRACKET, RBRACKET]);
    w.CountSlot(keys, 1, Brackets([]), INLINE, before, [], here);
    ghost var slots := [] + [Slot(1, true, Brackets([]))];
    here := w.meant;
    w.Lead(true, false, keys[0], INLINE);
    Seeds(w, p);
    w.CountSlot(keys, 0, seeds, INLINE, before, slots, here);
    slots := slots + [Slot(0, true, seeds)];
    w.PlainSlot(keys, 2, true, Flag(false), false, INLINE, before, slots);
    slots := slots + [Slot(2, true, Flag(false))];
    w.Seal(keys, INLINE, before, slots);
    Three(Slot(1, true, Brackets([])), Slot(0, true, seeds), Slot(2, true, Flag(false)));
  }

  method Observability(w: Writer)
    requires w.Valid()
    modifies w
    ensures w.Valid() && w.mute == old(w.mute) && w.meant == old(w.meant) + Show(ObserveDoc())
  {
    hide ObserveKeys, Show, Started, Rows;
    var keys := ObserveKeys();
    ghost var before := w.meant;
    w.Start(true, INLINE);
    NoRows(keys);
    w.PlainSlot(keys, 0, true, Flag(true), true, INLINE, before, []);
    ghost var slots := [] + [Slot(0, true, Flag(true))];
    w.PlainSlot(keys, 1, true, Flag(true), false, INLINE, before, slots);
    slots := slots + [Slot(1, true, Flag(true))];
    w.Seal(keys, INLINE, before, slots);
    Two(Slot(0, true, Flag(true)), Slot(1, true, Flag(true)));
  }

  // ----- The whole text

  /** One section to a line. */
  const LINES := Layout(LINE2, LINE2, LINE)

  /** Version, name and companion files. */
  method Head(w: Writer, p: Profile, ghost before: Bytes) returns (ghost slots: seq<Slot>)
    requires w.Valid() && Ready(p) && w.meant == before
    modifies w
    ensures w.Valid() && w.mute == (old(w.mute) || !Showable(p.name) || !Showable(p.meta.registerMap) || !Showable(p.meta.view))
    ensures slots == [Slot(0, true, Doc.Number(2)), Slot(1, true, Word(p.name)), Slot(10, p.meta.registerMap != [], Word(p.meta.registerMap)),
                      Slot(11, p.meta.view != [], Word(p.meta.view))]
    ensures w.Building(before, RootKeys(), slots, LINES)
  {
    hide RootKeys, Show, Started, Rows, Ready, Showable;
    var keys := RootKeys();
    w.Start(true, LINES);
    NoRows(keys);
    slots := [];
    w.PlainSlot(keys, 0, true, Doc.Number(2), true, LINES, before, slots);
    slots := slots + [Slot(0, true, Doc.Number(2))];
    w.WordSlot(keys, 1, true, p.name, false, LINES, before, slots);
    slots := slots + [Slot(1, true, Word(p.name))];
    w.WordSlot(keys, 10, p.meta.registerMap != [], p.meta.registerMap, false, LINES, before, slots);
    slots := slots + [Slot(10, p.meta.registerMap != [], Word(p.meta.registerMap))];
    w.WordSlot(keys, 11, p.meta.view != [], p.meta.view, false, LINES, before, slots);
    slots := slots + [Slot(11, p.meta.view != [], Word(p.meta.view))];
    Four(Slot(0, true, Doc.Number(2)), Slot(1, true, Word(p.name)), Slot(10, p.meta.registerMap != [], Word(p.meta.registerMap)),
         Slot(11, p.meta.view != [], Word(p.meta.view)));
    EmptyShowable();
  }

  /** The sections on what the device is and how it is reached. */
  function FrontSlots(c: Profile): seq<Slot>
    requires Named(c)
  {
    hide DeviceDoc, TransportDoc, ProtocolDoc, DefaultsDoc, Named;
    [Slot(2, true, DeviceDoc(c.meta)), Slot(3, true, TransportDoc(c.address, c.mdio)), Slot(4, true, ProtocolDoc(c)),
     Slot(6, true, DefaultsDoc(c.mdio))]
  }

  /** The sections on its registers, what may be written to them, and what they start with. */
  function BackSlots(c: Profile): seq<Slot>
    requires Named(c)
  {
    hide ResourcesDoc, PolicyDoc, SettingsDoc, ObserveDoc, Named;
    [Slot(5, true, ResourcesDoc(c.meta.ids)), Slot(7, true, PolicyDoc(c)), Slot(8, true, SettingsDoc(c)), Slot(9, true, ObserveDoc())]
  }

  method Front(w: Writer, p: Profile, ghost before: Bytes, ghost slots: seq<Slot>) returns (ghost more: seq<Slot>)
    requires w.Valid() && Ready(p) && Named(Canon(p)) && w.Building(before, RootKeys(), slots, LINES) && slots != []
    modifies w
    ensures w.Valid() && w.Building(before, RootKeys(), more, LINES) && more != []
    ensures more == slots + FrontSlots(Canon(p))
    ensures var m := Canon(p).meta;
      w.mute == (old(w.mute) || !Showable(m.model) || !Showable(m.kind) || !Showable(m.vendor) || !Showable(m.caption))
  {
    hide RootKeys, Show, Started, Rows, Ready, Canon, Showable, DeviceDoc, TransportDoc, ProtocolDoc, DefaultsDoc, Named;
    ReadyRegs(p);
    CanonKeeps(p);
    ghost var c := Canon(p);
    more := slots;
    ghost var here := w.meant;
    w.Lead(true, false, RootKeys()[2], LINES);
    Device(w, p);
    more := Counted(w, 2, DeviceDoc(c.meta), before, more, here);
    here := w.meant;
    w.Lead(true, false, RootKeys()[3], LINES);
    Transport(w, p.address, p.mdio);
    more := Counted(w, 3, TransportDoc(p.address, p.mdio), before, more, here);
    here := w.meant;
    w.Lead(true, false, RootKeys()[4], LINES);
    Protocol(w, p);
    more := Counted(w, 4, ProtocolDoc(c), before, more, here);
    here := w.meant;
    w.Lead(true, false, RootKeys()[6], LINES);
    Defaults(w, p.mdio);
    more := Counted(w, 6, DefaultsDoc(p.mdio), before, more, here);
    Behind4(slots, Slot(2, true, DeviceDoc(c.meta)), Slot(3, true, TransportDoc(p.address, p.mdio)), Slot(4, true, ProtocolDoc(c)),
            Slot(6, true, DefaultsDoc(p.mdio)));
  }

  /** A section that has just been printed counts as one of the text's. */
  ghost method Counted(w: Writer, k: nat, d: Doc, before: Bytes, slots: seq<Slot>, from: Bytes) returns (more: seq<Slot>)
    requires k < 12 && Numbered(slots, 12) && slots != [] && slots[0].there
    requires from == before + Started(true, Rows(RootKeys(), slots), LINE2, LINE2)
    requires w.meant == from + (Between(false, LINE2, LINE2) + ShowKey(true, RootKeys()[k])) + Show(d)
    ensures w.Building(before, RootKeys(), more, LINES) && more == slots + [Slot(k, true, d)]
  {
    hide RootKeys, Show, Started, Rows;
    w.CountSlot(RootKeys(), k, d, LINES, before, slots, from);
    more := slots + [Slot(k, true, d)];
  }

  lemma Behind4<T>(s: seq<T>, a: T, b: T, c: T, d: T)
    ensures s + [a] + [b] + [c] + [d] == s + [a, b, c, d]
  {
  }

  method Back(w: Writer, p: Profile, ghost before: Bytes, ghost slots: seq<Slot>) returns (ghost more: seq<Slot>)
    requires w.Valid() && Ready(p) && Named(Canon(p)) && w.Building(before, RootKeys(), slots, LINES) && slots != []
    modifies w
    ensures w.Valid() && w.mute == old(w.mute) && w.Building(before, RootKeys(), more, LINES) && more != []
    ensures more == slots + BackSlots(Canon(p))
  {
    hide RootKeys, Show, Started, Rows, Ready, Canon, Showable, ResourcesDoc, PolicyDoc, SettingsDoc, ObserveDoc, Named;
    ReadyRegs(p);
    ghost var c := Canon(p);
    more := slots;
    ghost var here := w.meant;
    w.Lead(true, false, RootKeys()[5], LINES);
    Resources(w, p);
    more := Counted(w, 5, ResourcesDoc(c.meta.ids), before, more, here);
    here := w.meant;
    w.Lead(true, false, RootKeys()[7], LINES);
    Policy(w, p);
    more := Counted(w, 7, PolicyDoc(c), before, more, here);
    here := w.meant;
    w.Lead(true, false, RootKeys()[8], LINES);
    Settings(w, p);
    more := Counted(w, 8, SettingsDoc(c), before, more, here);
    here := w.meant;
    w.Lead(true, false, RootKeys()[9], LINES);
    Observability(w);
    more := Counted(w, 9, ObserveDoc(), before, more, here);
    Behind4(slots, Slot(5, true, ResourcesDoc(c.meta.ids)), Slot(7, true, PolicyDoc(c)), Slot(8, true, SettingsDoc(c)), Slot(9, true, ObserveDoc()));
  }

  lemma SlotsWhole(c: Profile)
    requires Named(c)
    ensures [Slot(0, true, Doc.Number(2)), Slot(1, true, Word(c.name)), Slot(10, c.meta.registerMap != [], Word(c.meta.registerMap)),
             Slot(11, c.meta.view != [], Word(c.meta.view))] + FrontSlots(c) + BackSlots(c) == RootSlots(c)
  {
    hide DeviceDoc, TransportDoc, ProtocolDoc, DefaultsDoc, ResourcesDoc, PolicyDoc, SettingsDoc, ObserveDoc, Named;
  }

  /** Every section in its order, and the end of the text. */
  method Whole(w: Writer, p: Profile)
    requires w.Valid() && Ready(p) && Named(Canon(p)) && w.meant == []
    modifies w
    ensures w.Valid() && w.meant == TextOf(Canon(p)) && w.mute == (old(w.mute) || Unprintable(p))
  {
    hide RootKeys, Show, Started, Rows, Ready, Canon, Showable, Named, RootSlots, FrontSlots, BackSlots;
    ReadyRegs(p);
    CanonFiles(p);
    CanonKeeps(p);
    ghost var slots := Head(w, p, []);
    slots := Front(w, p, [], slots);
    slots := Back(w, p, [], slots);
    SlotsWhole(Canon(p));
    w.Seal(RootKeys(), LINES, [], slots);
    assert w.meant == Show(Root(Canon(p)));
    w.Append(LINE);
  }

  /** Some text of the canonical form has a character that is never printed. */
  ghost predicate Unprintable(p: Profile)
    requires p.count <= 256
  {
    var m := Canon(p).meta;
    !Showable(p.name) || !Showable(p.meta.registerMap) || !Showable(p.meta.view) || !Showable(m.model) || !Showable(m.kind) || !Showable(m.vendor)
    || !Showable(m.caption)
  }

  lemma CanonFiles(p: Profile)
    requires p.count <= 256
    ensures Canon(p).meta.registerMap == p.meta.registerMap && Canon(p).meta.view == p.meta.view
  {
    hide RegIds, LastOnly, Text;
  }

  lemma AssetShowable(s: Bytes, suffix: string)
    requires Clean(suffix) && AssetName(s, Text(suffix))
    ensures Showable(s)
  {
    if s != [] {
      var n := |s| - |suffix|;
      forall i | 0 <= i < |s| ensures 32 <= s[i] < 127 {
        if i < n {
          assert AssetChar(s[i]);
        } else {
          assert s[i] == s[n..][i - n] == suffix[i - n] as int;
        }
      }
    }
  }

  /** Only the free texts can be unprintable in a valid profile. */
  lemma OnlyTexts(p: Profile)
    requires Typed(p) && Validate(p) == Ok && IdValid(p.name) && p.count <= 256
    ensures Unprintable(p) == !Speakable(Canon(p).meta)
  {
    hide RegIds, LastOnly, Text, Validate, Typed, Showable, AssetName, IdsSize, IdsValid, ClassValid, RulesFit, MdioConfig.Distinct,
      MdioConfig.SettingRegs, RegisterMapFile, IdValid;
    ValidLists(p);
    IdSpellable(p.name);
    AssetShowable(p.meta.registerMap, ".json");
    AssetShowable(p.meta.view, ".js");
    KindsValid();
    ClassFits(Canon(p).meta.kind);
  }

  /** Prints a valid profile into a buffer, or says why not. */
  method Format(p: Profile, cap: nat) returns (r: R<Bytes>)
    requires Typed(p)
    ensures r == ProfilePrinter.Format(p, cap)
  {
    hide Validate, IdValid, Canon, Speakable, TextOf, Named, Typed, Ready, Unprintable;
    var status := Validate(p);
    if status != Ok {
      return Fail(status);
    }
    if cap == 0 {
      return Fail(Malformed);
    }
    if !IdValid(p.name) {
      return Fail(Unsupported);
    }
    ValidIsReady(p);
    ValidIsNamed(p);
    OnlyTexts(p);
    var w := new Writer(cap);
    Whole(w, p);
    if w.failed || |w.out| > JSON_MAX {
      return Fail(Range);
    }
    r := Good(w.out);
  }
}
