/**
 One profile that is valid and is printed, but whose text is refused: its model name is not UTF-8.
 */
module ProfileExample {
  import opened Words
  import opened Statuses
  import opened Utf8
  import opened Tokens
  import opened JsonText
  import opened JsonDocs
  import opened JsonTables
  import opened ProfileModel
  import opened ProfileParser
  import opened ProfileKeys
  import opened ProfilePrinter
  import opened ProfileRoundTrip
  import MdioConfig

  // ----- How long a text is at most

  lemma {:induction false} QuotedSize(s: Bytes)
    ensures |QuotedChars(s)| <= 2 * |s|
  {
    if s != [] {
      QuotedSize(s[1..]);
    }
  }

  lemma {:induction false} RestSize(braced: bool, es: seq<Entry>, sep: Bytes, tail: Bytes, m: nat)
    requires forall i :: 0 <= i < |es| ==> |ShowEntry(braced, es[i])| <= m
    ensures |ShowRest(braced, es, sep, tail)| <= |es| * (m + |sep| + 1) + |tail| + 1
    decreases es
  {
    hide ShowEntry;
    if es != [] {
      RestSize(braced, es[1..], sep, tail, m);
      assert |es| * (m + |sep| + 1) == (|es| - 1) * (m + |sep| + 1) + (m + |sep| + 1);
    }
  }

  lemma GroupSize(d: Doc, m: nat)
    requires d.Group? && forall i :: 0 <= i < |d.es| ==> |ShowEntry(d.braced, d.es[i])| <= m
    ensures |Show(d)| <= 2 + |d.lead| + |d.tail| + |d.es| * (m + |d.sep| + 1)
  {
    hide ShowEntry, ShowRest;
    if d.es != [] {
      RestSize(d.braced, d.es[1..], d.sep, d.tail, m);
      assert |d.es| * (m + |d.sep| + 1) == (|d.es| - 1) * (m + |d.sep| + 1) + (m + |d.sep| + 1);
    }
  }

  lemma EntrySize(e: Entry, braced: bool, h: nat)
    requires |e.key| < KEY_MAX && |Show(e.value)| <= h
    ensures |ShowEntry(braced, e)| <= 130 + h
  {
    hide Show, QuotedChars;
    QuotedSize(e.key);
  }

  lemma {:induction false} RowsKeys(keys: seq<Bytes>, slots: seq<Slot>, h: nat)
    requires KeysFit(keys) && Numbered(slots, |keys|) && forall i :: 0 <= i < |slots| && slots[i].there ==> |Show(slots[i].doc)| <= h
    ensures |Rows(keys, slots)| <= |slots|
    ensures forall i :: 0 <= i < |Rows(keys, slots)| ==> |ShowEntry(true, Rows(keys, slots)[i])| <= 130 + h
    decreases slots
  {
    hide Rows, Show, ShowEntry, Printed;
    if slots == [] {
      NoRows(keys);
    } else {
      RowsStep(keys, slots);
      RowsKeys(keys, slots[1..], h);
      if slots[0].there {
        EntrySize(Entry(keys[slots[0].key], slots[0].doc), true, h);
        assert Rows(keys, slots) == [Rows(keys, slots)[0]] + Rows(keys, slots[1..]);
      }
    }
  }

  /** A table of `n` members of size `h`, generously counted. */
  predicate Sized(d: Doc, h: nat) { |Show(d)| <= h }

  lemma TableSize(keys: seq<Bytes>, slots: seq<Slot>, h: nat, lead: Bytes, sep: Bytes, tail: Bytes)
    requires KeysFit(keys) && Numbered(slots, |keys|) && |lead| <= 3 && |sep| <= 3 && |tail| <= 3
    requires forall i :: 0 <= i < |slots| && slots[i].there ==> Sized(slots[i].doc, h)
    ensures Sized(Group(true, Rows(keys, slots), lead, sep, tail), 8 + |slots| * (h + 134))
  {
    hide Rows, Show, ShowEntry, KeysFit;
    RowsKeys(keys, slots, h);
    var n := |Rows(keys, slots)|;
    GroupSize(Group(true, Rows(keys, slots), lead, sep, tail), 130 + h);
    Grows(n, |slots|, 130 + h + |sep| + 1, h + 134);
  }

  lemma Grows(a: nat, b: nat, x: nat, y: nat)
    requires a <= b && x <= y
    ensures a * x <= b * y
  {
    assert a * x <= a * y;
    assert a * y <= b * y;
  }

  lemma WordSized(s: Bytes, h: nat)
    requires 2 * |s| + 2 <= h
    ensures Sized(Word(s), h)
  {
    QuotedSize(s);
  }

  lemma HexSized(v: nat, digits: nat)
    requires digits <= 4
    ensures Sized(Hex(v, digits), 200)
  {
    WordSized(HexText(v, digits), 200);
  }

  lemma SmallSized(n: nat)
    requires n < 100
    ensures Sized(Doc.Number(n), 200) && Sized(Flag(true), 200) && Sized(Flag(false), 200) && Sized(Brackets([]), 200)
  {
    DecimalShort(n);
  }

  lemma BracesSize(keys: seq<Bytes>, slots: seq<Slot>, h: nat)
    requires KeysFit(keys) && Numbered(slots, |keys|) && forall i :: 0 <= i < |slots| && slots[i].there ==> Sized(slots[i].doc, h)
    ensures Sized(Braces(keys, slots), 8 + |slots| * (h + 134))
  {
    hide Rows, Sized, KeysFit;
    TableSize(keys, slots, h, [], [BLANK], []);
  }

  // ----- The example

  const LETTER: Bytes := ['a' as int]

  function Example(): Profile {
    Profile(true, LETTER, 0, 1, 0, false, [], 0, CYCLE_DELAY, false, [], [], [],
            Meta(2, [], [0xFF], Text("phy"), [], [], [], [LETTER]))
  }

  lemma ExampleValid()
    ensures var p := Example(); Typed(p) && Validate(p) == Ok && IdValid(p.name) && Named(p) && Canon(p) == p
    ensures Speakable(Example().meta) && !Legible(Example().meta)
  {
    hide Text;
    KindsValid();
    assert |Text("phy")| == 3;
    var p := Example();
    assert MdioConfig.SettingRegs(p.seeds) == [];
    assert IdsSize(p.meta.ids[1..]) == 0;
    assert Utf8Length([0xFF]) == 0;
  }

  lemma BusSized(mdio: bool)
    ensures Sized(Word(BusName(mdio)), 200) && Sized(Word(Controller(mdio)), 200) && Sized(Word(Driver(mdio)), 200)
  {
    hide Text, Sized;
    WordSized(BusName(mdio), 200);
    WordSized(Controller(mdio), 200);
    WordSized(Driver(mdio), 200);
  }

  lemma ModeSized(black: bool)
    ensures Sized(Word(ModeName(black)), 200)
  {
    hide Text, Sized;
    WordSized(ModeName(black), 200);
  }

  lemma DeviceSized(m: Meta)
    requires |m.model| < 99 && |m.kind| < 99 && |m.vendor| < 99 && |m.caption| < 99
    ensures Sized(DeviceDoc(m), 3200)
  {
    hide DeviceKeys, KeysFit, Braces, Sized, Text;
    WordSized(m.model, 200);
    WordSized(m.kind, 200);
    WordSized(m.vendor, 200);
    WordSized(m.caption, 200);
    DeviceKeysFit();
    BracesSize(DeviceKeys(), [Slot(0, true, Word(m.model)), Slot(2, true, Word(m.kind)), Slot(1, m.vendor != [], Word(m.vendor)),
                              Slot(3, m.caption != [], Word(m.caption))], 200);
    Roomier(DeviceDoc(m), 8 + 4 * (200 + 134), 3200);
  }

  lemma Roomier(d: Doc, h: nat, g: nat)
    requires Sized(d, h) && h <= g
    ensures Sized(d, g)
  {
  }

  lemma TransportSized(address: u8, mdio: bool)
    ensures Sized(TransportDoc(address, mdio), 3200)
  {
    hide TransportKeys, KeysFit, Braces, Sized, Text, BusName, Controller, Driver, Hex;
    BusSized(mdio);
    HexSized(address, 2);
    SmallSized(7);
    TransportKeysFit();
    BracesSize(TransportKeys(), [Slot(0, true, Word(BusName(mdio))), Slot(1, true, Word(Controller(mdio))), Slot(2, true, Hex(address, 2)),
                                 Slot(3, !mdio, Doc.Number(7))], 200);
    Roomier(TransportDoc(address, mdio), 8 + 4 * (200 + 134), 3200);
  }

  lemma OptionsSized(c: Profile)
    requires Named(c) && c.mdio && !c.autopoll && c.regDelay < 100 && c.cycleDelay < 100 && c.polled == []
    ensures Sized(OptionsDoc(c), 1400)
  {
    hide OptionKeys, KeysFit, Braces, Sized, Named;
    SmallSized(c.regDelay);
    SmallSized(c.cycleDelay);
    assert OrderDocs(c.polled, c.meta.ids) == [];
    OptionKeysFit();
    BracesSize(OptionKeys(), OptionSlots(c), 200);
    Roomier(OptionsDoc(c), 8 + 4 * (200 + 134), 1400);
  }

  lemma ProtocolSized(c: Profile)
    requires Named(c) && c.mdio && !c.autopoll && c.regDelay < 100 && c.cycleDelay < 100 && c.polled == []
    ensures Sized(ProtocolDoc(c), 3200)
  {
    hide ProtocolKeys, KeysFit, Braces, Sized, Named, OptionsDoc, Driver;
    OptionsSized(c);
    BusSized(c.mdio);
    Roomier(Word(Driver(c.mdio)), 200, 1400);
    ProtocolKeysFit();
    BracesSize(ProtocolKeys(), [Slot(0, true, Word(Driver(c.mdio))), Slot(1, true, OptionsDoc(c))], 1400);
    Roomier(ProtocolDoc(c), 8 + 2 * (1400 + 134), 3200);
  }

  lemma DriverSized()
    ensures Sized(DriverDoc(), 342)
  {
    hide ModeKeys, KeysFit, Braces, Sized, Text;
    WordSized(Text("driver"), 200);
    ModeKeysFit();
    BracesSize(ModeKeys(), [Slot(0, true, Word(Text("driver")))], 200);
  }

  lemma RegisterSized(mdio: bool)
    ensures Sized(RegisterDoc(mdio), 2400)
  {
    hide ResourceKeys, KeysFit, Braces, Sized, Text, DriverDoc, Hex;
    DriverSized();
    SmallSized(Width(mdio));
    WordSized(Text("rw"), 200);
    HexSized(Maximum(mdio), Digits(mdio));
    Roomier(Doc.Number(Width(mdio)), 200, 342);
    Roomier(Word(Text("rw")), 200, 342);
    Roomier(Hex(Maximum(mdio), Digits(mdio)), 200, 342);
    ResourceKeysFit();
    BracesSize(ResourceKeys(), RegisterSlots(mdio), 342);
    Roomier(RegisterDoc(mdio), 8 + 5 * (342 + 134), 2400);
  }

  lemma DefaultsSized(mdio: bool)
    ensures Sized(DefaultsDoc(mdio), 3200)
  {
    hide DefaultsKeys, KeysFit, Braces, Sized, RegisterDoc;
    RegisterSized(mdio);
    DefaultsKeysFit();
    BracesSize(DefaultsKeys(), [Slot(0, true, RegisterDoc(mdio))], 2400);
    Roomier(DefaultsDoc(mdio), 8 + 1 * (2400 + 134), 3200);
  }

  lemma ResourceSized(id: Bytes, reg: nat)
    requires |id| < 99
    ensures Sized(ResourceDoc(id, reg), 1010)
  {
    hide ResourceKeys, KeysFit, Braces, Sized, Text, Hex;
    WordSized(id, 200);
    WordSized(Text("register"), 200);
    HexSized(reg, 2);
    ResourceKeysFit();
    BracesSize(ResourceKeys(), ResourceSlots(id, reg), 200);
  }

  lemma ResourcesSized(id: Bytes)
    requires |id| < 99
    ensures Sized(ResourcesDoc([id]), 3200)
  {
    hide Show, ResourceDoc;
    ResourceSized(id, 0);
    var d := ResourcesDoc([id]);
    assert d.es[0] == Entry([], ResourceDoc(id, 0));
    assert ShowEntry(false, d.es[0]) == Show(ResourceDoc(id, 0));
    GroupSize(d, 1010);
  }

  lemma PolicySized(c: Profile)
    requires Named(c) && c.white == c.deny == []
    ensures Sized(PolicyDoc(c), 3200)
  {
    hide PolicyKeys, PolicyEntryKeys, KeysFit, Braces, Sized, Named, ModeName;
    assert RuleDocs(c.white, c.meta.ids, c.mdio) == [] && RuleDocs(c.deny, c.meta.ids, c.mdio) == [];
    SmallSized(0);
    ModeSized(true);
    ModeSized(c.black);
    PolicyKeysFit();
    PolicyEntryKeysFit();
    BracesSize(PolicyEntryKeys(), [Slot(0, true, Word(ModeName(true))), Slot(1, true, Brackets([]))], 200);
    BracesSize(PolicyEntryKeys(), [Slot(0, true, Word(ModeName(c.black))), Slot(1, true, Brackets([])), Slot(2, true, Brackets([]))], 200);
    Roomier(ReadDoc(), 8 + 2 * (200 + 134), 1010);
    BracesSize(PolicyKeys(), [Slot(0, true, ReadDoc()), Slot(1, true, WriteDoc(c))], 1010);
    Roomier(PolicyDoc(c), 8 + 2 * (1010 + 134), 3200);
  }

  lemma SettingsSized(c: Profile)
    requires Named(c) && c.seeds == []
    ensures Sized(SettingsDoc(c), 3200)
  {
    hide SettingsKeys, KeysFit, Braces, Sized, Named;
    assert SeedDocs(c.seeds, c.meta.ids, c.mdio) == [];
    SmallSized(0);
    SettingsKeysFit();
    BracesSize(SettingsKeys(), [Slot(1, true, Brackets([])), Slot(0, true, Brackets([])), Slot(2, true, Flag(false))], 200);
    Roomier(SettingsDoc(c), 8 + 3 * (200 + 134), 3200);
  }

  lemma ObserveSized()
    ensures Sized(ObserveDoc(), 3200)
  {
    hide ObserveKeys, KeysFit, Braces, Sized;
    SmallSized(0);
    ObserveKeysFit();
    BracesSize(ObserveKeys(), [Slot(0, true, Flag(true)), Slot(1, true, Flag(true))], 200);
    Roomier(ObserveDoc(), 8 + 2 * (200 + 134), 3200);
  }

  lemma RootSized(c: Profile)
    requires Named(c) && |c.name| < 99 && c.meta.registerMap == [] && c.meta.view == []
    requires Sized(DeviceDoc(c.meta), 3200) && Sized(ProtocolDoc(c), 3200) && Sized(ResourcesDoc(c.meta.ids), 3200)
    requires Sized(PolicyDoc(c), 3200) && Sized(SettingsDoc(c), 3200)
    ensures |TextOf(c)| <= JSON_MAX
  {
    hide RootKeys, KeysFit, Rows, Named, DeviceDoc, TransportDoc, ProtocolDoc, DefaultsDoc, ResourcesDoc, PolicyDoc, SettingsDoc, ObserveDoc, Show;
    SmallSized(2);
    Roomier(Doc.Number(2), 200, 3200);
    WordSized(c.name, 3200);
    TransportSized(c.address, c.mdio);
    DefaultsSized(c.mdio);
    ObserveSized();
    RootKeysFit();
    TableSize(RootKeys(), RootSlots(c), 3200, LINE2, LINE2, LINE);
  }

  /** A valid configuration that is printed, and whose text is refused. */
  lemma ExampleRefused()
    ensures Typed(Example())
    ensures var printed := Format(Example(), JSON_MAX + 1);
      printed.Good? && ParseProfile(printed.value, true) == Fail(Malformed)
  {
    hide Named, Validate, IdValid, Canon, Speakable, Legible, TextOf, ParseProfile, DeviceDoc, ProtocolDoc, ResourcesDoc, PolicyDoc, SettingsDoc,
      OptionsDoc;
    var p := Example();
    ExampleValid();
    assert |Text("phy")| == 3;
    DeviceSized(p.meta);
    ProtocolSized(p);
    ResourcesSized(LETTER);
    PolicySized(p);
    SettingsSized(p);
    RootSized(p);
    IllegibleRefused(p, JSON_MAX + 1);
  }
}
