/**
 The version 2 reader undoes the printer: section by section, then the whole text.
 */
module ProfileCodec {
  import opened Words
  import opened JsonText
  import opened JsonDocs
  import opened JsonTables
  import opened ProfileModel
  import opened ProfileParser
  import opened ProfileKeys
  import opened ProfilePrinter
  import MdioConfig

  // ----- Words and numbers

  predicate Clean(s: string) { forall i :: 0 <= i < |s| ==> ' ' <= s[i] <= '~' }

  lemma WordsRead(s: string)
    requires Clean(s) && |s| < KEY_MAX
    ensures Fitting(Word(Text(s)), 0) && Reads(Some(Show(Word(Text(s)))), Text(s)) && Spellable(Text(s), KEY_MAX)
  {
    hide Show, Spelled;
    AsciiValid(Text(s));
    SpelledOf(Text(s), KEY_MAX);
  }

  predicate Fitting(d: Doc, h: nat) { Neat(d) && Height(d) <= h }

  lemma TextFits(s: Bytes, cap: nat)
    requires Spellable(s, cap)
    ensures Fitting(Word(s), 0) && Spelled(Some(Show(Word(s))), cap) == Some(s)
  {
    hide Show, Spelled;
    SpelledOf(s, cap);
  }

  lemma NumberFits(n: nat, max: nat)
    requires n <= max
    ensures Fitting(Number(n), 0) && Counted(Some(Show(Number(n))), max) == Some(n)
  {
    hide Show, Counted;
    CountedOf(n, max);
  }

  lemma FlagFits(yes: bool)
    ensures Fitting(Flag(yes), 0) && Flagged(Some(Show(Flag(yes)))) == Some(yes)
  {
    hide Show, Flagged;
    FlaggedOf(yes);
  }

  lemma Powers()
    ensures Power16(2) == 0x100 && Power16(4) == 0x1_0000
  {
    assert Power16(3) == 0x1000;
  }

  lemma HexFits(v: nat, digits: nat, max: nat)
    requires v <= max && v < Power16(digits) && 1 <= digits <= 16
    ensures Fitting(Hex(v, digits), 0) && Hexed(Some(Show(Hex(v, digits))), max) == Some(v)
  {
    hide Show, Hexed, Power16;
    AsciiValid(HexText(v, digits));
    HexedOf(v, digits, max);
  }

  /** A value of the bus's width. */
  lemma ValueFits(v: nat, mdio: bool)
    requires v <= Maximum(mdio)
    ensures Fitting(Hex(v, Digits(mdio)), 0) && Hexed(Some(Show(Hex(v, Digits(mdio)))), Maximum(mdio)) == Some(v)
  {
    hide Show, Hexed, Hex, Power16, Fitting;
    Powers();
    HexFits(v, Digits(mdio), Maximum(mdio));
  }

  lemma IdFits(id: Bytes)
    requires IdValid(id)
    ensures Fitting(Word(id), 0) && Spelled(Some(Show(Word(id))), NAME_CAP) == Some(id)
  {
    hide Show, Spelled;
    forall i | 0 <= i < |id| ensures 32 < id[i] < 127 { assert IdChar(id[i]); }
    AsciiValid(id);
    SpelledOf(id, NAME_CAP);
  }

  /** The members of an object on one line, by place. */
  lemma BracesTaken(keys: seq<Bytes>, slots: seq<Slot>, h: nat)
    requires KeysFit(keys) && Numbered(slots, |keys|) && Apart(slots) && h < DEPTH_MAX
    requires forall i :: 0 <= i < |slots| && slots[i].there ==> Fitting(slots[i].doc, h)
    ensures var d := Braces(keys, slots);
      && Fitting(d, 1 + h) && Fields(Show(d), keys) == Some(Placed(Nothing(|keys|), slots))
      && Members(Some(Show(d)), keys) == Fields(Show(d), keys) && Holds(Placed(Nothing(|keys|), slots), slots)
  {
    hide Show, Fields, Neat, Height, Placed, KeysFit, Braces;
    FieldsOfBraces(keys, slots, h);
  }

  // ----- Sections

  lemma ClassFits(kind: Bytes)
    requires ClassValid(kind)
    ensures Spellable(kind, CLASS_CAP)
  {
    hide Text, Spellable;
    var names := ["generic", "phy", "power", "gpio", "sensor", "memory", "storage", "bridge", "serial"];
    forall i | 0 <= i < |names| ensures Spellable(Text(names[i]), CLASS_CAP) { ShortSpelled(names[i]); }
    assert forall i :: 0 <= i < |names| ==> ClassNames()[i] == Text(names[i]);
  }

  lemma ShortSpelled(s: string)
    requires Clean(s) && |s| < CLASS_CAP
    ensures Spellable(Text(s), CLASS_CAP)
  {
    AsciiValid(Text(s));
  }

  lemma DeviceTaken(m: Meta)
    requires m.model != [] && Spellable(m.model, MODEL_CAP) && Spellable(m.vendor, MODEL_CAP) && Spellable(m.caption, LABEL_CAP) && ClassValid(m.kind)
    ensures Fitting(DeviceDoc(m), 1) && ParseDevice(Some(Show(DeviceDoc(m)))) == Good((m.model, m.vendor, m.kind, m.caption))
  {
    hide Text, Show, Fitting, Fields, Members, Spelled, DeviceKeys, Placed, KeysFit, Braces, Spellable, ClassValid;
    ClassFits(m.kind);
    TextFits(m.model, MODEL_CAP);
    TextFits(m.vendor, MODEL_CAP);
    TextFits(m.kind, CLASS_CAP);
    TextFits(m.caption, LABEL_CAP);
    DeviceKeysFit();
    var slots := [Slot(0, true, Word(m.model)), Slot(2, true, Word(m.kind)), Slot(1, m.vendor != [], Word(m.vendor)),
                  Slot(3, m.caption != [], Word(m.caption))];
    BracesTaken(DeviceKeys(), slots, 0);
    var f := Placed(Nothing(4), slots);
    assert f[slots[0].key].Some? && f[slots[1].key].Some? && f[slots[2].key].Some? == (m.vendor != []) && f[slots[3].key].Some? == (m.caption != []);
  }

  lemma BusNamesRead(mdio: bool)
    ensures Fitting(Word(BusName(mdio)), 0) && Reads(Some(Show(Word(BusName(mdio)))), BusName(mdio))
    ensures Fitting(Word(Controller(mdio)), 0) && Reads(Some(Show(Word(Controller(mdio)))), Controller(mdio))
    ensures Fitting(Word(Driver(mdio)), 0) && Reads(Some(Show(Word(Driver(mdio)))), Driver(mdio))
  {
    hide Text, Show, Fitting, Reads, Spellable;
    if mdio {
      WordsRead("mdio");
      WordsRead("pl_mdio_0");
      WordsRead("bvstk_mdio_bridge");
    } else {
      WordsRead("i2c");
      WordsRead("pl_i2c_0");
      WordsRead("bvstk_i2c_bridge");
    }
  }

  lemma TransportTaken(address: u8, mdio: bool)
    requires address <= AddressMax(mdio)
    ensures Fitting(TransportDoc(address, mdio), 1) && ParseTransport(Some(Show(TransportDoc(address, mdio))), mdio) == Good(address)
  {
    hide Text, Show, Fitting, Fields, Members, Reads, Hexed, Counted, TransportKeys, Placed, KeysFit, Braces, Hex, BusName, Controller, Driver;
    BusNamesRead(mdio);
    Powers();
    HexFits(address, 2, AddressMax(mdio));
    NumberFits(7, 7);
    TransportKeysFit();
    var slots := [Slot(0, true, Word(BusName(mdio))), Slot(1, true, Word(Controller(mdio))), Slot(2, true, Hex(address, 2)),
                  Slot(3, !mdio, Number(7))];
    BracesTaken(TransportKeys(), slots, 0);
    var f := Placed(Nothing(4), slots);
    assert f[slots[0].key].Some? && f[slots[1].key].Some? && f[slots[2].key].Some? && f[slots[3].key].Some? == !mdio;
  }

  // ----- Options

  lemma {:induction false} ItemsFit(docs: seq<Doc>, h: nat)
    requires forall i :: 0 <= i < |docs| ==> Fitting(docs[i], h)
    ensures NeatAll(Items(docs)) && HeightAll(Items(docs)) <= h
  {
    hide Neat, Height;
    if docs != [] {
      ItemsFit(docs[1..], h);
      assert Items(docs)[0].value == docs[0] && Items(docs)[1..] == Items(docs[1..]);
      assert Printed([]);
    }
  }

  lemma BracketsFit(docs: seq<Doc>, h: nat)
    requires forall i :: 0 <= i < |docs| ==> Fitting(docs[i], h)
    ensures Fitting(Brackets(Items(docs)), 1 + h)
  {
    hide NeatAll, HeightAll, Items;
    ItemsFit(docs, h);
  }

  lemma SoundNames(c: Profile)
    requires Sound(c)
    ensures Named(c) && IdsValid(c.meta.ids) && 1 + IdsSize(c.meta.ids) <= IDS_CAP && c.count > 0
  {
    hide IdsSize, IdsValid, IdValid, Spellable, ClassValid, RegisterMapName, ViewName, MdioConfig.Distinct;
  }

  lemma OrderFits(polled: seq<u8>, ids: seq<Bytes>)
    requires (forall i :: 0 <= i < |polled| ==> polled[i] < |ids|) && IdsValid(ids)
    ensures Fitting(Brackets(Items(OrderDocs(polled, ids))), 1)
  {
    hide Fitting, Items, IdValid;
    forall i | 0 <= i < |polled| ensures Fitting(OrderDocs(polled, ids)[i], 0) { IdFits(ids[polled[i]]); }
    BracketsFit(OrderDocs(polled, ids), 0);
  }

  lemma OptionSlotsFit(c: Profile)
    requires Sound(c) && Named(c)
    ensures var slots := OptionSlots(c);
      Numbered(slots, 6) && Apart(slots) && forall i :: 0 <= i < |slots| && slots[i].there ==> Fitting(slots[i].doc, 1)
  {
    hide Hex, OrderDocs, Items, IdsValid, Show, Counted, Hexed, MetaValid, Spellable, Power16, Flagged;
    SoundNames(c);
    hide Sound;
    if c.mdio {
      OrderFits(c.polled, c.meta.ids);
      assert Fitting(Flag(c.autopoll), 1) && Fitting(Number(c.regDelay), 1) && Fitting(Number(c.cycleDelay), 1);
    } else {
      SoundBounds(c);
      Powers();
      HexFits(c.maxValue, 2, MAX_CODE);
      assert Fitting(Flag(true), 1);
    }
  }

  lemma SoundBounds(c: Profile)
    requires Sound(c)
    ensures c.mdio ==> c.regDelay <= REG_DELAY_MAX && c.cycleDelay <= CYCLE_DELAY_MAX && c.maxValue == 0
    ensures !c.mdio ==> c.polled == [] && !c.autopoll && c.regDelay == 0 && c.cycleDelay == 0 && c.maxValue <= MAX_CODE
    ensures c.address <= AddressMax(c.mdio) && 0 < c.count <= CountMax(c.mdio)
  {
    hide MetaValid, Spellable, IdValid;
  }

  /** The options as the reader finds them. */
  function OptionsSeen(c: Profile): OptionViews
    requires Sound(c) && Named(c)
  {
    OptionSlotsFit(c);
    Placed(Nothing(6), OptionSlots(c))
  }

  lemma MdioOptionsRead(f: OptionViews, yes: bool, pause: nat, cycle: nat)
    requires pause <= REG_DELAY_MAX && cycle <= CYCLE_DELAY_MAX && f[0] == f[1] == None
    requires f[2] == Some(Show(Flag(yes))) && f[4] == Some(Show(Number(pause))) && f[5] == Some(Show(Number(cycle)))
    ensures ParseOptions(f, true) == Good(Options(0, yes, pause, cycle))
  {
    hide Show, Hexed, Counted, Flagged, Fitting;
    FlagFits(yes);
    NumberFits(pause, REG_DELAY_MAX);
    NumberFits(cycle, CYCLE_DELAY_MAX);
  }

  lemma I2cOptionsRead(f: OptionViews, most: nat)
    requires most <= MAX_CODE && f[2] == f[3] == f[4] == f[5] == None
    requires f[0] == Some(Show(Hex(most, 2))) && f[1] == Some(Show(Flag(true)))
    ensures ParseOptions(f, false) == Good(Options(most, false, 0, 0))
  {
    hide Show, Hexed, Counted, Flagged, Fitting, Hex, Power16;
    Powers();
    HexFits(most, 2, MAX_CODE);
    FlagFits(true);
  }

  lemma OptionsRead(c: Profile)
    requires Sound(c) && Named(c)
    ensures ParseOptions(OptionsSeen(c), c.mdio) == Good(Options(c.maxValue, c.autopoll, c.regDelay, c.cycleDelay))
    ensures c.mdio ==> OptionsSeen(c)[3] == Some(Show(Brackets(Items(OrderDocs(c.polled, c.meta.ids)))))
  {
    hide Show, Hex, OrderDocs, Items, Named, ParseOptions, Brackets, Placed, Sound, Fitting, Apart;
    SoundBounds(c);
    OptionSlotsFit(c);
    var f, slots := OptionsSeen(c), OptionSlots(c);
    PlacedAt(Nothing(6), slots);
    if c.mdio {
      assert f[slots[0].key].Some? && f[slots[1].key].Some? && f[slots[2].key].Some? && f[slots[3].key].Some?;
      assert f[0] == f[1] == None;
      MdioOptionsRead(f, c.autopoll, c.regDelay, c.cycleDelay);
    } else {
      assert f[slots[0].key].Some? && f[slots[1].key].Some? && f[2] == f[3] == f[4] == f[5] == None;
      I2cOptionsRead(f, c.maxValue);
    }
  }

  lemma ProtocolTaken(c: Profile)
    requires Sound(c) && Named(c)
    ensures Fitting(ProtocolDoc(c), 3) && ParseProtocol(Some(Show(ProtocolDoc(c))), c.mdio) == Good(OptionsSeen(c))
  {
    hide Text, Show, Fitting, Fields, Members, Reads, ProtocolKeys, OptionKeys, Placed, KeysFit, Braces, BusName, Controller, Driver, OptionSlots,
      Sound, Named, ParseOptions, OrderDocs, Items;
    OptionSlotsFit(c);
    OptionKeysFit();
    ProtocolKeysFit();
    BusNamesRead(c.mdio);
    BracesTaken(OptionKeys(), OptionSlots(c), 1);
    var options := OptionsDoc(c);
    var slots := [Slot(0, true, Word(Driver(c.mdio))), Slot(1, true, options)];
    assert Fitting(Word(Driver(c.mdio)), 2) by { Higher(Word(Driver(c.mdio)), 0, 2); }
    BracesTaken(ProtocolKeys(), slots, 2);
    var f := Placed(Nothing(2), slots);
    assert f[slots[0].key].Some? && f[slots[1].key].Some?;
  }

  lemma Higher(d: Doc, h: nat, g: nat)
    requires Fitting(d, h) && h <= g
    ensures Fitting(d, g)
  {
  }

  // ----- Resources

  lemma DriverTaken()
    ensures Fitting(DriverDoc(), 1) && DriverMode(Some(Show(DriverDoc())))
  {
    hide Text, Show, Fitting, Fields, Members, Reads, ModeKeys, Placed, KeysFit, Braces;
    WordsRead("driver");
    ModeKeysFit();
    var slots := [Slot(0, true, Word(Text("driver")))];
    BracesTaken(ModeKeys(), slots, 0);
    var f := Placed(Nothing(1), slots);
    assert f[slots[0].key].Some?;
  }

  lemma RegisterSlotsFit(mdio: bool)
    ensures var slots := RegisterSlots(mdio);
      Numbered(slots, 13) && Apart(slots) && forall i :: 0 <= i < |slots| && slots[i].there ==> Fitting(slots[i].doc, 1)
  {
    hide Text, Hex, DriverDoc, Show, Reads, Hexed, DriverMode, Counted, Spellable;
    WordsRead("rw");
    ValueFits(Maximum(mdio), mdio);
    DriverTaken();
  }

  /** The defaults as the reader finds them. */
  function DefaultsSeen(mdio: bool): ResourceViews {
    hide RegisterSlots;
    RegisterSlotsFit(mdio);
    Placed(Nothing(13), RegisterSlots(mdio))
  }

  lemma RegisterTaken(mdio: bool)
    ensures Fitting(RegisterDoc(mdio), 2) && Members(Some(Show(RegisterDoc(mdio))), ResourceKeys()) == Some(DefaultsSeen(mdio))
  {
    hide Show, Fitting, Fields, Members, ResourceKeys, Placed, KeysFit, Braces, RegisterSlots;
    RegisterSlotsFit(mdio);
    ResourceKeysFit();
    BracesTaken(ResourceKeys(), RegisterSlots(mdio), 1);
  }

  /** The defaults say what a plain register is, and nothing of one register alone. */
  lemma DefaultsAre(mdio: bool)
    ensures var f := DefaultsSeen(mdio);
      && f[0] == f[1] == f[2] == f[8] == f[9] == f[10] == f[11] == f[12] == None
      && f[3] == Some(Show(Number(Width(mdio)))) && f[4] == Some(Show(Word(Text("rw"))))
      && f[5] == Some(Show(Hex(Maximum(mdio), Digits(mdio)))) && f[6] == f[7] == Some(Show(DriverDoc()))
  {
    hide Show, Fitting, Placed, Text, DriverDoc, Hex, Apart;
    RegisterSlotsFit(mdio);
    var f, slots := DefaultsSeen(mdio), RegisterSlots(mdio);
    PlacedAt(Nothing(13), slots);
    assert f[slots[0].key].Some? && f[slots[1].key].Some? && f[slots[2].key].Some? && f[slots[3].key].Some? && f[slots[4].key].Some?;
  }

  lemma DefaultsTaken(mdio: bool)
    ensures Fitting(DefaultsDoc(mdio), 3) && ParseDefaults(Some(Show(DefaultsDoc(mdio)))) == Good(DefaultsSeen(mdio))
  {
    hide Show, Fitting, Fields, Members, DefaultsKeys, ResourceKeys, Placed, KeysFit, Braces, RegisterDoc, DefaultsSeen;
    DefaultsKeysFit();
    RegisterTaken(mdio);
    DefaultsAre(mdio);
    var slots := [Slot(0, true, RegisterDoc(mdio))];
    BracesTaken(DefaultsKeys(), slots, 2);
    assert Placed(Nothing(1), slots)[slots[0].key].Some?;
  }

  lemma ResourceSlotsFit(id: Bytes, reg: nat)
    requires IdValid(id) && reg < 256
    ensures var slots := ResourceSlots(id, reg);
      Numbered(slots, 13) && Apart(slots) && forall i :: 0 <= i < |slots| && slots[i].there ==> Fitting(slots[i].doc, 0)
  {
    hide Text, Hex, Show, Reads, Hexed, Spellable, IdValid, Spelled, Power16, Fitting;
    WordsRead("register");
    IdFits(id);
    Powers();
    HexFits(reg, 2, 255);
  }

  /** One resource as the reader finds it. */
  function ResourceSeen(id: Bytes, reg: nat): ResourceViews
    requires IdValid(id) && reg < 256
  {
    hide ResourceSlots, IdValid;
    ResourceSlotsFit(id, reg);
    Placed(Nothing(13), ResourceSlots(id, reg))
  }

  lemma ResourceIs(id: Bytes, reg: nat)
    requires IdValid(id) && reg < 256
    ensures var f := ResourceSeen(id, reg);
      && f[0] == Some(Show(Word(id))) && f[1] == Some(Show(Word(Text("register")))) && f[2] == Some(Show(Hex(reg, 2)))
      && forall k :: 3 <= k < 13 ==> f[k] == None
  {
    hide Show, Fitting, Placed, Text, Hex, Apart, IdValid;
    ResourceSlotsFit(id, reg);
    var f, slots := ResourceSeen(id, reg), ResourceSlots(id, reg);
    PlacedAt(Nothing(13), slots);
    assert f[slots[0].key].Some? && f[slots[1].key].Some? && f[slots[2].key].Some?;
  }

  lemma ResourceFound(id: Bytes, reg: nat)
    requires IdValid(id) && reg < 256
    ensures Fitting(ResourceDoc(id, reg), 1) && Members(Some(Show(ResourceDoc(id, reg))), ResourceKeys()) == Some(ResourceSeen(id, reg))
  {
    hide Show, Fitting, Fields, Members, ResourceKeys, Placed, KeysFit, Braces, ResourceSlots, IdValid;
    ResourceSlotsFit(id, reg);
    ResourceKeysFit();
    BracesTaken(ResourceKeys(), ResourceSlots(id, reg), 0);
  }

  lemma PlainSeen(id: Bytes, reg: nat, mdio: bool)
    requires IdValid(id) && reg < 256
    ensures Plain(Merged(ResourceSeen(id, reg), DefaultsSeen(mdio)), mdio)
  {
    hide Show, Fitting, Text, Hex, IdValid, ResourceSeen, DefaultsSeen, Counted, Hexed, DriverMode, Reads, DriverDoc, Spellable, Merged, Members;
    ResourceIs(id, reg);
    DefaultsAre(mdio);
    NumberFits(Width(mdio), Width(mdio));
    WordsRead("rw");
    ValueFits(Maximum(mdio), mdio);
    DriverTaken();
  }

  // ----- The list of resources

  /** What the reader has of the resources behind the first `k` of them. */
  function IdsUpto(ids: seq<Bytes>, k: nat): (r: Ids)
    requires k <= |ids| <= SLOTS
    ensures r.count == k && forall i :: 0 <= i < SLOTS ==> r.at[i] == if i < k then Some(ids[i]) else None
  {
    if k == 0 then Ids(Nothing(SLOTS), 0, 1)
    else
      var before := IdsUpto(ids, k - 1);
      Ids(before.at[k - 1 := Some(ids[k - 1])], k, before.size + |ids[k - 1]| + 1)
  }

  lemma {:induction false} SizeAppend(ids: seq<Bytes>, id: Bytes)
    ensures IdsSize(ids + [id]) == IdsSize(ids) + |id| + 1
  {
    if ids == [] {
      assert [] + [id] == [id] && IdsSize([id][1..]) == 0;
    } else {
      assert (ids + [id])[1..] == ids[1..] + [id];
      SizeAppend(ids[1..], id);
    }
  }

  lemma {:induction false} SizeGrows(a: seq<Bytes>, b: seq<Bytes>)
    ensures IdsSize(a) <= IdsSize(a + b)
  {
    if a != [] {
      assert (a + b)[1..] == a[1..] + b;
      SizeGrows(a[1..], b);
    }
  }

  lemma {:induction false} SizeUpto(ids: seq<Bytes>, k: nat)
    requires k <= |ids| <= SLOTS
    ensures IdsUpto(ids, k).size == 1 + IdsSize(ids[..k]) <= 1 + IdsSize(ids)
  {
    hide IdsSize;
    assert ids[..k] + ids[k..] == ids;
    SizeGrows(ids[..k], ids[k..]);
    if k == 0 {
      NoSize();
    } else {
      SizeUpto(ids, k - 1);
      SizeAppend(ids[..k - 1], ids[k - 1]);
      assert ids[..k - 1] + [ids[k - 1]] == ids[..k];
    }
  }

  lemma NoSize()
    ensures IdsSize([]) == 0
  {
  }

  predicate IdsFit(ids: seq<Bytes>, mdio: bool) { IdsValid(ids) && |ids| <= CountMax(mdio) && 1 + IdsSize(ids) <= IDS_CAP }

  lemma ResourceTaken(ids: seq<Bytes>, k: nat, mdio: bool)
    requires IdsFit(ids, mdio) && k < |ids|
    ensures ParseResource(Show(ResourceDoc(ids[k], k)), DefaultsSeen(mdio), mdio, IdsUpto(ids, k)) == Good(IdsUpto(ids, k + 1))
  {
    hide Show, Fitting, Text, Hex, IdValid, ResourceSeen, DefaultsSeen, Spelled, Hexed, Reads, Plain, Merged, Members, ResourceDoc, ResourceKeys,
      Spellable, Power16, IdsSize;
    var id := ids[k];
    ResourceFound(id, k);
    ResourceIs(id, k);
    PlainSeen(id, k, mdio);
    WordsRead("register");
    IdFits(id);
    Powers();
    HexFits(k, 2, CountMax(mdio) - 1);
    SizeUpto(ids, k + 1);
    var before := IdsUpto(ids, k);
    assert Some(id) !in before.at;
  }

  lemma ResourcesFit(ids: seq<Bytes>)
    requires IdsValid(ids) && |ids| <= 256
    ensures Fitting(ResourcesDoc(ids), 2)
  {
    hide Fitting, Items, IdValid, ResourceDoc, NeatAll, HeightAll;
    forall i | 0 <= i < |ids| ensures Fitting(ResourceDocs(ids)[i], 1) { ResourceFound(ids[i], i); }
    ItemsFit(ResourceDocs(ids), 1);
    assert ResourcesDoc(ids).es == Items(ResourceDocs(ids));
    FitsGroup(ResourcesDoc(ids), 1);
  }

  lemma FitsGroup(d: Doc, h: nat)
    requires d.Group? && NeatAll(d.es) && HeightAll(d.es) <= h && AllBlank(d.lead) && AllBlank(d.sep) && AllBlank(d.tail)
    ensures Fitting(d, 1 + h)
  {
  }

  lemma {:induction false} ResourcesTaken(ids: seq<Bytes>, k: nat, mdio: bool)
    requires IdsFit(ids, mdio) && k <= |ids|
    ensures var d := ResourcesDoc(ids);
      ParseResources(Some(Show(d)), Behind(d, k), DefaultsSeen(mdio), mdio, IdsUpto(ids, k)) == Good(IdsUpto(ids, |ids|))
    decreases |ids| - k
  {
    hide Show, Following, ParseResource, Behind, IdsUpto, DefaultsSeen, Items, IdsSize, IdValid, ResourceDoc;
    var d := ResourcesDoc(ids);
    ResourcesFit(ids);
    StepOf(d, k);
    if k < |ids| {
      assert d.es[k].value == ResourceDoc(ids[k], k);
      ResourceTaken(ids, k, mdio);
      ResourcesTaken(ids, k + 1, mdio);
      BehindSome(d, k + 1);
    }
  }

  lemma BehindSome(d: Doc, k: nat)
    requires d.Group? && k <= |d.es|
    ensures (k > 0 ==> Behind(d, k).Some?) && (k == 0 ==> Behind(d, k) == None)
  {
  }

  lemma IdsTaken(ids: seq<Bytes>, mdio: bool)
    requires IdsFit(ids, mdio) && ids != []
    ensures ParseIds(Some(Show(ResourcesDoc(ids))), DefaultsSeen(mdio), mdio) == Good(ids)
  {
    hide Show, ParseResources, Behind, IdsUpto, DefaultsSeen, Items, ResourceDoc, IdsSize, IdsValid;
    BehindSome(ResourcesDoc(ids), 0);
    ResourcesTaken(ids, 0, mdio);
    var all := IdsUpto(ids, |ids|);
    assert IdList(all.at, |ids|) == ids;
    IdsStart(ids);
  }

  lemma IdsStart(ids: seq<Bytes>)
    requires |ids| <= SLOTS
    ensures IdsUpto(ids, 0) == Ids(Nothing(SLOTS), 0, 1)
  {
    hide Nothing;
  }

  // ----- References, polling, rules and seeds

  lemma LookupOf(ids: seq<Bytes>, reg: nat)
    requires IdsValid(ids) && reg < |ids|
    ensures Fitting(Word(ids[reg]), 0) && Lookup(Some(Show(Word(ids[reg]))), ids) == Some(reg)
  {
    hide Show, Spelled, IdValid, IndexOf, Fitting;
    IdFits(ids[reg]);
    IndexOfKey(ids, reg);
  }

  lemma {:induction false} OrderTaken(polled: seq<u8>, ids: seq<Bytes>, k: nat)
    requires IdsValid(ids) && |ids| <= 256 && |polled| <= 32 && MdioConfig.Distinct(polled) && k <= |polled|
    requires forall i :: 0 <= i < |polled| ==> polled[i] < |ids|
    ensures var d := Brackets(Items(OrderDocs(polled, ids)));
      ParseOrder(Some(Show(d)), Behind(d, k), ids, polled[..k]) == Good(polled)
    decreases |polled| - k
  {
    hide Show, Following, Behind, Items, IdsValid, Lookup;
    var d := Brackets(Items(OrderDocs(polled, ids)));
    OrderFits(polled, ids);
    StepOf(d, k);
    if k < |polled| {
      assert d.es[k].value == Word(ids[polled[k]]);
      LookupOf(ids, polled[k]);
      OrderTaken(polled, ids, k + 1);
      BehindSome(d, k + 1);
      assert polled[..k + 1] == polled[..k] + [polled[k]];
    } else {
      assert polled[..k] == polled;
    }
  }

  lemma SoundOrder(c: Profile)
    requires c.mdio && Sound(c)
    ensures |c.polled| <= 32 && (forall i :: 0 <= i < |c.polled| ==> c.polled[i] < c.count) && MdioConfig.Distinct(c.polled) && c.count <= 32
  {
    hide MetaValid, Spellable, IdValid, MdioConfig.Distinct;
  }

  lemma RuleFound(r: Rule, ids: seq<Bytes>, mdio: bool)
    requires IdsValid(ids) && r.reg < |ids| <= 256 && r.val <= Maximum(mdio) && r.mask <= Maximum(mdio)
    ensures Fitting(RuleDoc(r, ids[r.reg], mdio), 2)
    ensures forall most: nat :: (mdio || (r.mask == 0xFF && r.val <= most)) ==> ParseRule(Show(RuleDoc(r, ids[r.reg], mdio)), ids, mdio, most) == Good(r)
  {
    hide Show, Fitting, Fields, Members, RuleKeys, MatchKeys, Placed, KeysFit, Braces, Hex, Hexed, Lookup, IdsValid;
    LookupOf(ids, r.reg);
    ValueFits(r.val, mdio);
    ValueFits(r.mask, mdio);
    RuleKeysFit();
    MatchKeysFit();
    var inner := [Slot(0, true, Hex(r.val, Digits(mdio))), Slot(1, true, Hex(r.mask, Digits(mdio)))];
    BracesTaken(MatchKeys(), inner, 0);
    var slots := [Slot(0, true, Word(ids[r.reg])), Slot(1, true, Braces(MatchKeys(), inner))];
    Higher(Word(ids[r.reg]), 0, 1);
    BracesTaken(RuleKeys(), slots, 1);
    var f, g := Placed(Nothing(2), slots), Placed(Nothing(2), inner);
    assert f[slots[0].key].Some? && f[slots[1].key].Some? && g[inner[0].key].Some? && g[inner[1].key].Some?;
  }

  lemma RulesFits(rules: seq<Rule>, ids: seq<Bytes>, mdio: bool, most: nat)
    requires IdsValid(ids) && |ids| <= 256 && RulesFit(rules, |ids|, mdio, most) && most <= MAX_CODE
    ensures Fitting(Brackets(Items(RuleDocs(rules, ids, mdio))), 3)
  {
    hide Fitting, Items, IdsValid, RuleDoc;
    forall i | 0 <= i < |rules| ensures Fitting(RuleDocs(rules, ids, mdio)[i], 2) {
      assert RuleFits(rules[i], |ids|, mdio, most);
      RuleFound(rules[i], ids, mdio);
    }
    BracketsFit(RuleDocs(rules, ids, mdio), 2);
  }

  lemma {:induction false} RulesTaken(rules: seq<Rule>, ids: seq<Bytes>, mdio: bool, most: nat, k: nat)
    requires IdsValid(ids) && |ids| <= 256 && RulesFit(rules, |ids|, mdio, most) && most <= MAX_CODE && k <= |rules|
    ensures var d := Brackets(Items(RuleDocs(rules, ids, mdio)));
      ParseRules(Some(Show(d)), Behind(d, k), ids, mdio, most, rules[..k]) == Good(rules)
    decreases |rules| - k
  {
    hide Show, Following, Behind, Items, IdsValid, ParseRule, RuleDoc;
    var d := Brackets(Items(RuleDocs(rules, ids, mdio)));
    RulesFits(rules, ids, mdio, most);
    StepOf(d, k);
    if k < |rules| {
      assert d.es[k].value == RuleDoc(rules[k], ids[rules[k].reg], mdio);
      assert RuleFits(rules[k], |ids|, mdio, most);
      RuleFound(rules[k], ids, mdio);
      RulesTaken(rules, ids, mdio, most, k + 1);
      BehindSome(d, k + 1);
      assert rules[..k + 1] == rules[..k] + [rules[k]];
    } else {
      assert rules[..k] == rules;
    }
  }

  lemma SeedFound(s: Setting, ids: seq<Bytes>, mdio: bool)
    requires IdsValid(ids) && s.reg < |ids| <= 256 && s.val <= Maximum(mdio)
    ensures Fitting(SeedDoc(s, ids[s.reg], mdio), 1)
    ensures ParseSeed(Show(SeedDoc(s, ids[s.reg], mdio)), ids, mdio) == Good(s)
  {
    hide Show, Fitting, Fields, Members, SeedKeys, Placed, KeysFit, Braces, Hex, Hexed, Lookup, IdsValid;
    LookupOf(ids, s.reg);
    ValueFits(s.val, mdio);
    SeedKeysFit();
    var slots := [Slot(0, true, Word(ids[s.reg])), Slot(1, true, Hex(s.val, Digits(mdio)))];
    BracesTaken(SeedKeys(), slots, 0);
    var f := Placed(Nothing(2), slots);
    assert f[slots[0].key].Some? && f[slots[1].key].Some?;
  }

  lemma SeedsFits(seeds: seq<Setting>, ids: seq<Bytes>, mdio: bool)
    requires IdsValid(ids) && |ids| <= 256 && SeedsFit(seeds, |ids|, mdio)
    ensures Fitting(Brackets(Items(SeedDocs(seeds, ids, mdio))), 2)
  {
    hide Fitting, Items, IdsValid, SeedDoc, MdioConfig.Distinct;
    forall i | 0 <= i < |seeds| ensures Fitting(SeedDocs(seeds, ids, mdio)[i], 1) { SeedFound(seeds[i], ids, mdio); }
    BracketsFit(SeedDocs(seeds, ids, mdio), 1);
  }

  lemma {:induction false} RegsUpto(seeds: seq<Setting>, k: nat)
    requires k <= |seeds|
    ensures MdioConfig.SettingRegs(seeds[..k]) == MdioConfig.SettingRegs(seeds)[..k]
  {
  }

  lemma {:induction false} SeedsTaken(seeds: seq<Setting>, ids: seq<Bytes>, mdio: bool, k: nat)
    requires IdsValid(ids) && |ids| <= 256 && SeedsFit(seeds, |ids|, mdio) && k <= |seeds|
    ensures var d := Brackets(Items(SeedDocs(seeds, ids, mdio)));
      ParseSeeds(Some(Show(d)), Behind(d, k), ids, mdio, seeds[..k]) == Good(seeds)
    decreases |seeds| - k
  {
    hide Show, Following, Behind, Items, IdsValid, ParseSeed, SeedDoc, MdioConfig.SettingRegs;
    var d := Brackets(Items(SeedDocs(seeds, ids, mdio)));
    SeedsFits(seeds, ids, mdio);
    StepOf(d, k);
    if k < |seeds| {
      assert d.es[k].value == SeedDoc(seeds[k], ids[seeds[k].reg], mdio);
      SeedFound(seeds[k], ids, mdio);
      RegsUpto(seeds, k);
      SeedsTaken(seeds, ids, mdio, k + 1);
      BehindSome(d, k + 1);
      assert seeds[..k + 1] == seeds[..k] + [seeds[k]];
    } else {
      assert seeds[..k] == seeds;
    }
  }

  // ----- Policy, settings, observability

  lemma ModesRead(black: bool)
    ensures Fitting(Word(ModeName(black)), 0) && Reads(Some(Show(Word(ModeName(black)))), ModeName(black))
    ensures !Reads(Some(Show(Word(ModeName(false)))), ModeName(true))
  {
    hide Text, Show, Fitting, Reads, Spellable;
    WordsRead("blacklist");
    WordsRead("whitelist");
    OnlyReads(Some(Show(Word(ModeName(false)))), ModeName(false));
    assert Text("blacklist")[0] != Text("whitelist")[0];
  }

  lemma OnlyReads(view: Option<Bytes>, s: Bytes)
    requires Reads(view, s)
    ensures forall t :: Reads(view, t) ==> t == s
  {
    hide Spelled;
  }

  lemma NoneRead()
    ensures Fitting(Brackets([]), 1) && EmptyList(Some(Show(Brackets([]))))
  {
    hide Show, Following;
    assert EmptyList(Some(Show(Brackets([])))) by {
      BehindSome(Brackets([]), 0);
      StepOf(Brackets([]), 0);
    }
  }

  lemma NoneThere()
    ensures EmptyList(None)
  {
  }

  /** An entry of the policy: a mode and one or two lists. */
  lemma PolicyEntryTaken(slots: seq<Slot>)
    requires |slots| >= 2 && Numbered(slots, 3) && Apart(slots) && forall i :: 0 <= i < |slots| && slots[i].there ==> Fitting(slots[i].doc, 3)
    ensures Fitting(Braces(PolicyEntryKeys(), slots), 4)
    ensures Members(Some(Show(Braces(PolicyEntryKeys(), slots))), PolicyEntryKeys()) == Some(Placed(Nothing(3), slots))
    ensures Holds(Placed(Nothing(3), slots), slots)
  {
    hide Show, Fields, PolicyEntryKeys, KeysFit, Placed, Holds, Fitting, Braces, Numbered, Apart, Members;
    PolicyEntryKeysFit();
    BracesTaken(PolicyEntryKeys(), slots, 3);
  }

  lemma PolicyRead(view: Option<Bytes>, f: Views, r: Views, w: Views, black: bool)
    requires |f| == 2 && |r| == |w| == 3 && f[1].Some?
    requires Members(view, PolicyKeys()) == Some(f) && Members(f[0], PolicyEntryKeys()) == Some(r) && Members(f[1], PolicyEntryKeys()) == Some(w)
    requires Reads(r[0], ModeName(true)) && EmptyList(r[1]) && EmptyList(r[2])
    requires Reads(w[0], ModeName(black)) && (!black ==> !Reads(w[0], ModeName(true)))
    ensures ParsePolicy(view) == Good(if black then (true, w[2], w[1]) else (false, w[1], w[2]))
  {
    hide Members, Reads, EmptyList, PolicyKeys, PolicyEntryKeys, ModeName;
  }

  lemma PolicyTaken(c: Profile)
    requires Named(c) && Fitting(AllowedDoc(c), 3) && Fitting(DeniedDoc(c), 3)
    ensures Fitting(PolicyDoc(c), 5)
    ensures ParsePolicy(Some(Show(PolicyDoc(c)))) == Good((c.black, Some(Show(AllowedDoc(c))), Some(Show(DeniedDoc(c)))))
  {
    hide Text, Show, Fitting, Fields, Members, Reads, EmptyList, PolicyKeys, PolicyEntryKeys, Placed, KeysFit, Braces, RuleDocs, Items, ModeName,
      Named, ParsePolicy;
    ModesRead(true);
    ModesRead(c.black);
    NoneRead();
    Higher(Word(ModeName(true)), 0, 3);
    Higher(Word(ModeName(c.black)), 0, 3);
    Higher(Brackets([]), 1, 3);
    var read := [Slot(0, true, Word(ModeName(true))), Slot(1, true, Brackets([]))];
    PolicyEntryTaken(read);
    var first, second := if c.black then DeniedDoc(c) else AllowedDoc(c), if c.black then AllowedDoc(c) else DeniedDoc(c);
    var write := [Slot(0, true, Word(ModeName(c.black))), Slot(1, true, first), Slot(2, true, second)];
    PolicyEntryTaken(write);
    var slots := [Slot(0, true, Braces(PolicyEntryKeys(), read)), Slot(1, true, Braces(PolicyEntryKeys(), write))];
    PolicyKeysFit();
    BracesTaken(PolicyKeys(), slots, 4);
    var f, r, w := Placed(Nothing(2), slots), Placed(Nothing(3), read), Placed(Nothing(3), write);
    assert f[slots[0].key].Some? && f[slots[1].key].Some? && r[read[0].key].Some? && r[read[1].key].Some? && r[2] == None;
    assert w[write[0].key].Some? && w[write[1].key].Some? && w[write[2].key].Some?;
    NoneThere();
    assert PolicyDoc(c) == Braces(PolicyKeys(), slots);
    PolicyRead(Some(Show(PolicyDoc(c))), f, r, w, c.black);
  }

  lemma SettingsTaken(c: Profile)
    requires Named(c) && IdsValid(c.meta.ids) && SeedsFit(c.seeds, c.count, c.mdio)
    ensures Fitting(SettingsDoc(c), 3) && ParseSettings(Some(Show(SettingsDoc(c))), c.meta.ids, c.mdio) == Good(c.seeds)
  {
    hide Text, Show, Fitting, Fields, Members, Flagged, EmptyList, SettingsKeys, Placed, KeysFit, Braces, SeedDocs, Items, ParseSeeds, IdsValid,
      SeedsFit;
    NoneRead();
    FlagFits(false);
    var seeds := Brackets(Items(SeedDocs(c.seeds, c.meta.ids, c.mdio)));
    SeedsFits(c.seeds, c.meta.ids, c.mdio);
    SeedsTaken(c.seeds, c.meta.ids, c.mdio, 0);
    BehindSome(seeds, 0);
    Higher(Brackets([]), 1, 2);
    Higher(Flag(false), 0, 2);
    var slots := [Slot(1, true, Brackets([])), Slot(0, true, seeds), Slot(2, true, Flag(false))];
    SettingsKeysFit();
    BracesTaken(SettingsKeys(), slots, 2);
    var f := Placed(Nothing(3), slots);
    assert f[slots[0].key].Some? && f[slots[1].key].Some? && f[slots[2].key].Some?;
    assert c.seeds[..0] == [];
  }

  lemma ObserveTaken()
    ensures Fitting(ObserveDoc(), 1) && ParseObservability(Some(Show(ObserveDoc()))) == Pass
  {
    hide Show, Fitting, Fields, Members, Flagged, ObserveKeys, Placed, KeysFit, Braces;
    FlagFits(true);
    var slots := [Slot(0, true, Flag(true)), Slot(1, true, Flag(true))];
    ObserveKeysFit();
    BracesTaken(ObserveKeys(), slots, 0);
    var f := Placed(Nothing(2), slots);
    assert f[slots[0].key].Some? && f[slots[1].key].Some?;
  }

  // ----- The whole text

  lemma AssetFits(s: Bytes, suffix: string)
    requires Clean(suffix) && AssetName(s, Text(suffix)) && s != []
    ensures Fitting(Word(s), 0) && Spelled(Some(Show(Word(s))), ASSET_CAP) == Some(s)
  {
    hide Show, Spelled;
    var n := |s| - |suffix|;
    forall i | 0 <= i < |s| ensures 32 <= s[i] < 127 {
      if i < n {
        assert AssetChar(s[i]);
      } else {
        assert s[i] == s[n..][i - n] == suffix[i - n] as int;
      }
    }
    AsciiValid(s);
    SpelledOf(s, ASSET_CAP);
  }

  lemma FilesFit(m: Meta, count: nat)
    requires MetaValid(m, count)
    ensures m.registerMap != [] ==> Fitting(Word(m.registerMap), 0) && Spelled(Some(Show(Word(m.registerMap))), ASSET_CAP) == Some(m.registerMap)
    ensures m.view != [] ==> Fitting(Word(m.view), 0) && Spelled(Some(Show(Word(m.view))), ASSET_CAP) == Some(m.view)
    ensures RegisterMapName(m.registerMap) && ViewName(m.view) && (m.view != [] ==> m.registerMap != [])
  {
    hide Show, Spelled, Fitting, IdsValid, IdsSize, ClassValid, RegisterMapFile, AssetName, Text;
    if m.registerMap != [] {
      AssetFits(m.registerMap, ".json");
    }
    if m.view != [] {
      AssetFits(m.view, ".js");
    }
  }

  lemma HeadTaken(c: Profile, r: Views)
    requires Sound(c) && |r| == 12
    requires r[0] == Some(Show(Number(2))) && r[1] == Some(Show(Word(c.name)))
    requires r[10] == if c.meta.registerMap != [] then Some(Show(Word(c.meta.registerMap))) else None
    requires r[11] == if c.meta.view != [] then Some(Show(Word(c.meta.view))) else None
    ensures ParseHead(r) == Good((c.name, c.meta.registerMap, c.meta.view))
  {
    hide Show, Spelled, Counted, IdValid, RegisterMapName, ViewName, Fitting, MetaValid, Spellable, MdioConfig.Distinct;
    FilesFit(c.meta, c.count);
    IdFits(c.name);
    NumberFits(2, 2);
  }

  /** What a sound profile says in its sections, each in a form that can be printed and taken back. */
  lemma FrontFits(c: Profile)
    requires Sound(c) && Named(c)
    ensures Fitting(DeviceDoc(c.meta), 5) && Fitting(TransportDoc(c.address, c.mdio), 5) && Fitting(ProtocolDoc(c), 5)
    ensures Fitting(DefaultsDoc(c.mdio), 5) && Fitting(Word(c.name), 5) && Fitting(Number(2), 5)
  {
    hide Sound, Named, Fitting, DeviceDoc, TransportDoc, ProtocolDoc, DefaultsDoc, Show, IdsSize, IdsValid, IdValid, Spelled, Counted, MetaValid,
      Spellable, ClassValid, ParseDevice, ParseTransport, ParseProtocol, ParseDefaults, OptionsSeen, DefaultsSeen;
    SoundBounds(c);
    SoundTexts(c);
    DeviceTaken(c.meta);
    Higher(DeviceDoc(c.meta), 1, 5);
    TransportTaken(c.address, c.mdio);
    Higher(TransportDoc(c.address, c.mdio), 1, 5);
    ProtocolTaken(c);
    Higher(ProtocolDoc(c), 3, 5);
    DefaultsTaken(c.mdio);
    Higher(DefaultsDoc(c.mdio), 3, 5);
    IdFits(c.name);
    Higher(Word(c.name), 0, 5);
    NumberFits(2, 2);
    Higher(Number(2), 0, 5);
  }

  lemma RulesListed(c: Profile)
    requires Sound(c) && Named(c)
    ensures Fitting(AllowedDoc(c), 3) && Fitting(DeniedDoc(c), 3)
    ensures ParseRules(Some(Show(AllowedDoc(c))), None, c.meta.ids, c.mdio, c.maxValue, []) == Good(c.white)
    ensures ParseRules(Some(Show(DeniedDoc(c))), None, c.meta.ids, c.mdio, c.maxValue, []) == Good(c.deny)
  {
    hide Sound, Fitting, RuleDocs, Items, Show, IdsSize, IdsValid, RulesFit, ParseRules, SeedsFit;
    SoundNames(c);
    SoundLists(c);
    RulesFits(c.white, c.meta.ids, c.mdio, c.maxValue);
    RulesFits(c.deny, c.meta.ids, c.mdio, c.maxValue);
    RulesTaken(c.white, c.meta.ids, c.mdio, c.maxValue, 0);
    RulesTaken(c.deny, c.meta.ids, c.mdio, c.maxValue, 0);
    BehindSome(AllowedDoc(c), 0);
    BehindSome(DeniedDoc(c), 0);
    assert c.white[..0] == [] && c.deny[..0] == [];
  }

  lemma BackFits(c: Profile)
    requires Sound(c) && Named(c)
    ensures Fitting(ResourcesDoc(c.meta.ids), 5) && Fitting(PolicyDoc(c), 5) && Fitting(SettingsDoc(c), 5) && Fitting(ObserveDoc(), 5)
  {
    hide Sound, Fitting, ResourcesDoc, PolicyDoc, SettingsDoc, ObserveDoc, Show, IdsSize, IdsValid, ParsePolicy, ParseSettings, ParseObservability,
      ParseRules, RulesFit, SeedsFit, AllowedDoc, DeniedDoc;
    SoundNames(c);
    SoundLists(c);
    ResourcesFit(c.meta.ids);
    Higher(ResourcesDoc(c.meta.ids), 2, 5);
    RulesListed(c);
    PolicyTaken(c);
    SettingsTaken(c);
    Higher(SettingsDoc(c), 3, 5);
    ObserveTaken();
    Higher(ObserveDoc(), 1, 5);
  }

  predicate SlotsFit(slots: seq<Slot>, n: nat, h: nat) { Numbered(slots, n) && Apart(slots) && DocsFit(slots, h) }

  predicate RootFits(c: Profile)
    requires Named(c)
  {
    hide RootSlots, Named;
    SlotsFit(RootSlots(c), 12, 5)
  }

  lemma RootSlotsFit(c: Profile)
    requires Sound(c) && Named(c)
    ensures RootFits(c)
  {
    hide Sound, Named, DeviceDoc, TransportDoc, ProtocolDoc, DefaultsDoc, ResourcesDoc, PolicyDoc, SettingsDoc, ObserveDoc, Show, Spelled, MetaValid,
      RegisterMapName, ViewName, Neat, Height, ClassValid, IdValid;
    FrontFits(c);
    BackFits(c);
    SoundTexts(c);
    FilesFit(c.meta, c.count);
  }

  /** The sections as the reader finds them. */
  function RootSeen(c: Profile): (v: Views)
    requires Sound(c) && Named(c)
    ensures |v| == 12
  {
    hide Sound, Named, RootSlots;
    RootSlotsFit(c);
    Placed(Nothing(12), RootSlots(c))
  }

  predicate RootIs(r: Views, c: Profile)
    requires |r| == 12 && Named(c)
  {
    hide Named, DeviceDoc, TransportDoc, ProtocolDoc, DefaultsDoc, ResourcesDoc, PolicyDoc, SettingsDoc, ObserveDoc, Show;
    && r[0] == Some(Show(Number(2))) && r[1] == Some(Show(Word(c.name)))
    && r[10] == (if c.meta.registerMap != [] then Some(Show(Word(c.meta.registerMap))) else None)
    && r[11] == (if c.meta.view != [] then Some(Show(Word(c.meta.view))) else None)
    && r[2] == Some(Show(DeviceDoc(c.meta))) && r[3] == Some(Show(TransportDoc(c.address, c.mdio))) && r[4] == Some(Show(ProtocolDoc(c)))
    && r[6] == Some(Show(DefaultsDoc(c.mdio))) && r[5] == Some(Show(ResourcesDoc(c.meta.ids))) && r[7] == Some(Show(PolicyDoc(c)))
    && r[8] == Some(Show(SettingsDoc(c))) && r[9] == Some(Show(ObserveDoc()))
  }

  lemma RootFound(c: Profile)
    requires Sound(c) && Named(c)
    ensures RootIs(RootSeen(c), c)
  {
    hide Sound, Named, DeviceDoc, TransportDoc, ProtocolDoc, DefaultsDoc, ResourcesDoc, PolicyDoc, SettingsDoc, ObserveDoc, Show, Placed, Apart,
      DocsFit;
    RootSlotsFit(c);
    var r, slots := RootSeen(c), RootSlots(c);
    PlacedAt(Nothing(12), slots);
    assert r[slots[0].key].Some? && r[slots[1].key].Some? && r[slots[2].key].Some? == (c.meta.registerMap != []);
    assert r[slots[3].key].Some? == (c.meta.view != []) && r[slots[4].key].Some? && r[slots[5].key].Some? && r[slots[6].key].Some?;
    assert r[slots[7].key].Some? && r[slots[8].key].Some? && r[slots[9].key].Some? && r[slots[10].key].Some? && r[slots[11].key].Some?;
  }

  lemma SoundLists(c: Profile)
    requires Sound(c)
    ensures RulesFit(c.white, c.count, c.mdio, c.maxValue) && RulesFit(c.deny, c.count, c.mdio, c.maxValue) && c.maxValue <= MAX_CODE
    ensures SeedsFit(c.seeds, c.count, c.mdio)
  {
    hide MetaValid, Spellable, IdValid, RulesFit, SeedsFit, MdioConfig.Distinct;
  }

  lemma SoundTexts(c: Profile)
    requires Sound(c)
    ensures c.meta.model != [] && Spellable(c.meta.model, MODEL_CAP) && Spellable(c.meta.vendor, MODEL_CAP) && Spellable(c.meta.caption, LABEL_CAP)
    ensures ClassValid(c.meta.kind) && IdValid(c.name) && MetaValid(c.meta, c.count)
  {
    hide Spellable, IdValid, RulesFit, SeedsFit, MdioConfig.Distinct, ClassValid, IdsSize, IdsValid;
  }

  lemma PollingTaken(c: Profile)
    requires Sound(c) && Named(c)
    ensures (if c.mdio then ParseOrder(OptionsSeen(c)[3], None, c.meta.ids, []) else Good([])) == Good(c.polled)
  {
    hide Sound, OptionsSeen, OrderDocs, Items, Show, ParseOrder, IdsSize, IdsValid, MdioConfig.Distinct, ParseOptions;
    SoundBounds(c);
    if c.mdio {
      SoundNames(c);
      SoundOrder(c);
      OptionsRead(c);
      OrderTaken(c.polled, c.meta.ids, 0);
      BehindSome(Brackets(Items(OrderDocs(c.polled, c.meta.ids))), 0);
      assert c.polled[..0] == [];
    }
  }

  /** Putting the sections together again. */
  lemma Assembled(c: Profile, r: Views)
    requires Sound(c) && Named(c) && |r| == 12 && RootIs(r, c)
    ensures ParseViews(r, c.mdio) == Good(c)
  {
    hide Sound, Named, DeviceDoc, TransportDoc, ProtocolDoc, DefaultsDoc, ResourcesDoc, PolicyDoc, SettingsDoc, ObserveDoc, Show, Fitting,
      ParseHead, ParseDevice, ParseTransport, ParseProtocol, ParseOptions, ParseDefaults, ParseIds, ParseOrder, ParsePolicy, ParseRules,
      ParseSettings, ParseObservability, Validate, OptionsSeen, DefaultsSeen, AllowedDoc, DeniedDoc, MetaValid, RulesFit, SeedsFit, IdsValid,
      IdsSize, ClassValid, IdValid, Spellable, OrderDocs, Items;
    SoundNames(c);
    SoundBounds(c);
    SoundTexts(c);
    SoundLists(c);
    HeadTaken(c, r);
    DeviceTaken(c.meta);
    TransportTaken(c.address, c.mdio);
    ProtocolTaken(c);
    OptionsRead(c);
    DefaultsTaken(c.mdio);
    SoundMeta(c);
    IdsTaken(c.meta.ids, c.mdio);
    PollingTaken(c);
    RulesListed(c);
    PolicyTaken(c);
    SettingsTaken(c);
    ObserveTaken();
    SoundIsValid(c);
  }

  lemma SoundMeta(c: Profile)
    requires Sound(c)
    ensures c.meta.version == 2 && |c.meta.ids| == c.count
  {
    hide ClassValid, RegisterMapName, ViewName, IdsSize, IdsValid, Spellable, IdValid, RulesFit, SeedsFit, MdioConfig.Distinct;
  }

  lemma DocumentTaken(c: Profile)
    requires Sound(c) && Named(c) && |TextOf(c)| <= JSON_MAX
    ensures Document(TextOf(c)) == Good(Show(Root(c))) && Fields(Show(Root(c)), RootKeys()) == Some(RootSeen(c))
  {
    hide Sound, Named, RootSlots, Show, Rows, RootKeys, KeysFit, Fields, Placed, Numbered, Apart, DocsFit, Skip, Value;
    RootSlotsFit(c);
    RootKeysFit();
    FieldsOfRows(RootKeys(), RootSlots(c), 5, LINE2, LINE2, LINE);
    var d := Root(c);
    ShowStarts(d);
    SkipNone(TextOf(c));
    ValueOf(d, 0, LINE);
    AheadOf(Show(d), LINE);
    LineSkipped();
  }

  lemma LineSkipped()
    ensures Skip(LINE) == [] && Ends(LINE) && AllBlank(LINE) && AllBlank(LINE2)
  {
  }

  /** The text of a sound profile is read back as that profile. */
  lemma TextTaken(c: Profile)
    requires Sound(c) && Named(c) && |TextOf(c)| <= JSON_MAX
    ensures ParseProfile(TextOf(c), c.mdio) == Good(c)
  {
    hide Sound, Named, Root, Show, RootKeys, Fields, Document, ParseViews, TextOf, RootIs, RootSeen;
    DocumentTaken(c);
    RootFound(c);
    Assembled(c, RootSeen(c));
  }
}
