/**
 The version 2 text of a profile: its canonical form, the document it is printed as, and when printing fails.
 */
module ProfilePrinter {
  import opened Words
  import opened Statuses
  import opened Tokens
  import opened JsonText
  import opened JsonDocs
  import opened JsonTables
  import opened ProfileModel
  import opened ProfileParser
  import MdioConfig

  // ----- The canonical form

  function LowHex(d: nat): (c: u8)
    requires d < 16
    ensures IdChar(c)
  {
    if d < 10 then '0' as int + d else 'a' as int + d - 10
  }

  /** The id of a register that has none of its own. */
  function RegId(reg: nat): (id: Bytes)
    requires reg < 256
    ensures |id| == 6
  {
    Text("reg_") + [LowHex(reg / 16), LowHex(reg % 16)]
  }

  function RegIds(n: nat): (ids: seq<Bytes>)
    requires n <= 256
    ensures |ids| == n && forall i :: 0 <= i < n ==> ids[i] == RegId(i)
  {
    if n == 0 then [] else RegIds(n - 1) + [RegId(n - 1)]
  }

  /** The seeds without those that a later one for the same register overwrites. */
  function LastOnly(seeds: seq<Setting>): (r: seq<Setting>)
    ensures |r| <= |seeds|
  {
    if seeds == [] then []
    else (if seeds[0].reg in MdioConfig.SettingRegs(seeds[1..]) then [] else [seeds[0]]) + LastOnly(seeds[1..])
  }

  /** What the version 2 text says of a profile that may have been read from the older format. */
  function Canon(p: Profile): Profile
    requires p.count <= 256
  {
    p.(seeds := if p.mdio then p.seeds else LastOnly(p.seeds),
       meta := if p.meta.version != 0 then p.meta
               else Meta(2, [], p.name, if p.mdio then Text("phy") else Text("generic"), [], p.meta.registerMap, p.meta.view, RegIds(p.count)))
  }

  // ----- Documents

  /** Every register that is named has an id. */
  predicate Named(c: Profile) {
    && |c.meta.ids| == c.count <= 256
    && (forall i :: 0 <= i < |c.polled| ==> c.polled[i] < c.count)
    && (forall i :: 0 <= i < |c.white| ==> c.white[i].reg < c.count) && (forall i :: 0 <= i < |c.deny| ==> c.deny[i].reg < c.count)
    && (forall i :: 0 <= i < |c.seeds| ==> c.seeds[i].reg < c.count)
  }

  function Hex(v: nat, digits: nat): Doc { Word(HexText(v, digits)) }

  function Digits(mdio: bool): nat { Width(mdio) / 4 }

  function Items(docs: seq<Doc>): (es: seq<Entry>)
    ensures |es| == |docs| && forall i :: 0 <= i < |es| ==> es[i] == Entry([], docs[i])
  {
    if docs == [] then [] else [Entry([], docs[0])] + Items(docs[1..])
  }

  function DeviceDoc(m: Meta): Doc {
    hide DeviceKeys, Text;
    Braces(DeviceKeys(), [Slot(0, true, Word(m.model)), Slot(2, true, Word(m.kind)), Slot(1, m.vendor != [], Word(m.vendor)),
                          Slot(3, m.caption != [], Word(m.caption))])
  }

  function TransportDoc(address: u8, mdio: bool): Doc {
    hide TransportKeys, Text, BusName, Controller, Hex;
    Braces(TransportKeys(), [Slot(0, true, Word(BusName(mdio))), Slot(1, true, Word(Controller(mdio))), Slot(2, true, Hex(address, 2)),
                             Slot(3, !mdio, Number(7))])
  }

  function OrderDocs(polled: seq<u8>, ids: seq<Bytes>): (ds: seq<Doc>)
    requires forall i :: 0 <= i < |polled| ==> polled[i] < |ids|
    ensures |ds| == |polled| && forall i :: 0 <= i < |ds| ==> ds[i] == Word(ids[polled[i]])
  {
    seq(|polled|, i requires 0 <= i < |polled| => Word(ids[polled[i]]))
  }

  function OptionSlots(c: Profile): seq<Slot>
    requires Named(c)
  {
    hide Text, Hex;
    if c.mdio then [Slot(2, true, Flag(c.autopoll)), Slot(4, true, Number(c.regDelay)), Slot(5, true, Number(c.cycleDelay)),
                    Slot(3, true, Brackets(Items(OrderDocs(c.polled, c.meta.ids))))]
    else [Slot(0, true, Hex(c.maxValue, 2)), Slot(1, true, Flag(true))]
  }

  function OptionsDoc(c: Profile): Doc
    requires Named(c)
  {
    hide OptionKeys, Text, Hex;
    Braces(OptionKeys(), OptionSlots(c))
  }

  function ProtocolDoc(c: Profile): Doc
    requires Named(c)
  {
    hide ProtocolKeys, Text, Driver, OptionsDoc;
    Braces(ProtocolKeys(), [Slot(0, true, Word(Driver(c.mdio))), Slot(1, true, OptionsDoc(c))])
  }

  function DriverDoc(): Doc {
    hide ModeKeys, Text;
    Braces(ModeKeys(), [Slot(0, true, Word(Text("driver")))])
  }

  function RegisterSlots(mdio: bool): seq<Slot> {
    [Slot(3, true, Number(Width(mdio))), Slot(4, true, Word(Text("rw"))), Slot(5, true, Hex(Maximum(mdio), Digits(mdio))),
     Slot(6, true, DriverDoc()), Slot(7, true, DriverDoc())]
  }

  function RegisterDoc(mdio: bool): Doc {
    hide ResourceKeys, Text, Hex, DriverDoc;
    Braces(ResourceKeys(), RegisterSlots(mdio))
  }

  function DefaultsDoc(mdio: bool): Doc {
    hide DefaultsKeys, RegisterDoc;
    Braces(DefaultsKeys(), [Slot(0, true, RegisterDoc(mdio))])
  }

  function ResourceSlots(id: Bytes, reg: nat): seq<Slot> {
    [Slot(0, true, Word(id)), Slot(1, true, Word(Text("register"))), Slot(2, true, Hex(reg, 2))]
  }

  function ResourceDoc(id: Bytes, reg: nat): Doc {
    hide ResourceKeys, Text, Hex;
    Braces(ResourceKeys(), ResourceSlots(id, reg))
  }

  function ResourceDocs(ids: seq<Bytes>): (ds: seq<Doc>)
    ensures |ds| == |ids| && forall i :: 0 <= i < |ds| ==> ds[i] == ResourceDoc(ids[i], i)
  {
    hide ResourceDoc;
    seq(|ids|, i requires 0 <= i < |ids| => ResourceDoc(ids[i], i))
  }

  const LINE: Bytes := [NEWLINE]
  const LINE2: Bytes := [NEWLINE, BLANK, BLANK]
  const LINE4: Bytes := [NEWLINE, BLANK, BLANK, BLANK, BLANK]

  /** One resource to a line. */
  function ResourcesDoc(ids: seq<Bytes>): Doc { Group(false, Items(ResourceDocs(ids)), LINE4, LINE4, LINE2) }

  function MatchDoc(r: Rule, mdio: bool): Doc {
    hide MatchKeys, Hex;
    Braces(MatchKeys(), [Slot(0, true, Hex(r.val, Digits(mdio))), Slot(1, true, Hex(r.mask, Digits(mdio)))])
  }

  function RuleDoc(r: Rule, id: Bytes, mdio: bool): Doc {
    hide RuleKeys, MatchDoc;
    Braces(RuleKeys(), [Slot(0, true, Word(id)), Slot(1, true, MatchDoc(r, mdio))])
  }

  function RuleDocs(rules: seq<Rule>, ids: seq<Bytes>, mdio: bool): (ds: seq<Doc>)
    requires forall i :: 0 <= i < |rules| ==> rules[i].reg < |ids|
    ensures |ds| == |rules| && forall i :: 0 <= i < |ds| ==> ds[i] == RuleDoc(rules[i], ids[rules[i].reg], mdio)
  {
    hide RuleDoc;
    seq(|rules|, i requires 0 <= i < |rules| => RuleDoc(rules[i], ids[rules[i].reg], mdio))
  }

  function AllowedDoc(c: Profile): Doc
    requires Named(c)
  {
    Brackets(Items(RuleDocs(c.white, c.meta.ids, c.mdio)))
  }

  function DeniedDoc(c: Profile): Doc
    requires Named(c)
  {
    Brackets(Items(RuleDocs(c.deny, c.meta.ids, c.mdio)))
  }

  /** Reading is never restricted. */
  function ReadDoc(): Doc {
    hide PolicyEntryKeys, ModeName;
    Braces(PolicyEntryKeys(), [Slot(0, true, Word(ModeName(true))), Slot(1, true, Brackets([]))])
  }

  /** The list in force comes first. */
  function WriteDoc(c: Profile): Doc
    requires Named(c)
  {
    hide PolicyEntryKeys, ModeName, AllowedDoc, DeniedDoc;
    Braces(PolicyEntryKeys(), [Slot(0, true, Word(ModeName(c.black))), Slot(1, true, if c.black then DeniedDoc(c) else AllowedDoc(c)),
                               Slot(2, true, if c.black then AllowedDoc(c) else DeniedDoc(c))])
  }

  function PolicyDoc(c: Profile): Doc
    requires Named(c)
  {
    hide PolicyKeys, ReadDoc, WriteDoc;
    Braces(PolicyKeys(), [Slot(0, true, ReadDoc()), Slot(1, true, WriteDoc(c))])
  }

  function SeedDoc(s: Setting, id: Bytes, mdio: bool): Doc {
    hide SeedKeys, Hex;
    Braces(SeedKeys(), [Slot(0, true, Word(id)), Slot(1, true, Hex(s.val, Digits(mdio)))])
  }

  function SeedDocs(seeds: seq<Setting>, ids: seq<Bytes>, mdio: bool): (ds: seq<Doc>)
    requires forall i :: 0 <= i < |seeds| ==> seeds[i].reg < |ids|
    ensures |ds| == |seeds| && forall i :: 0 <= i < |ds| ==> ds[i] == SeedDoc(seeds[i], ids[seeds[i].reg], mdio)
  {
    hide SeedDoc;
    seq(|seeds|, i requires 0 <= i < |seeds| => SeedDoc(seeds[i], ids[seeds[i].reg], mdio))
  }

  function SettingsDoc(c: Profile): Doc
    requires Named(c)
  {
    hide SettingsKeys;
    Braces(SettingsKeys(), [Slot(1, true, Brackets([])), Slot(0, true, Brackets(Items(SeedDocs(c.seeds, c.meta.ids, c.mdio)))),
                            Slot(2, true, Flag(false))])
  }

  function ObserveDoc(): Doc {
    hide ObserveKeys;
    Braces(ObserveKeys(), [Slot(0, true, Flag(true)), Slot(1, true, Flag(true))])
  }

  function RootSlots(c: Profile): seq<Slot>
    requires Named(c)
  {
    hide DeviceDoc, TransportDoc, ProtocolDoc, DefaultsDoc, ResourcesDoc, PolicyDoc, SettingsDoc, ObserveDoc;
    [Slot(0, true, Number(2)), Slot(1, true, Word(c.name)), Slot(10, c.meta.registerMap != [], Word(c.meta.registerMap)),
     Slot(11, c.meta.view != [], Word(c.meta.view)), Slot(2, true, DeviceDoc(c.meta)), Slot(3, true, TransportDoc(c.address, c.mdio)),
     Slot(4, true, ProtocolDoc(c)), Slot(6, true, DefaultsDoc(c.mdio)), Slot(5, true, ResourcesDoc(c.meta.ids)), Slot(7, true, PolicyDoc(c)),
     Slot(8, true, SettingsDoc(c)), Slot(9, true, ObserveDoc())]
  }

  /** One section to a line. */
  function Root(c: Profile): Doc
    requires Named(c)
  {
    hide RootKeys, DeviceDoc, TransportDoc, ProtocolDoc, DefaultsDoc, ResourcesDoc, PolicyDoc, SettingsDoc, ObserveDoc, Named;
    Group(true, Rows(RootKeys(), RootSlots(c)), LINE2, LINE2, LINE)
  }

  /** The text of a profile in canonical form. */
  function TextOf(c: Profile): Bytes
    requires Named(c)
  {
    Show(Root(c)) + LINE
  }

  // ----- Printing

  /** What the configuration structure of the bus can hold at all. */
  predicate Typed(p: Profile) {
    if p.mdio then p.maxValue == 0 && p.count < 0x100
    else p.polled == [] && !p.autopoll && p.regDelay == 0 && p.cycleDelay == 0
         && (forall i :: 0 <= i < |p.white| ==> p.white[i].val <= 0xFF && p.white[i].mask == 0xFF)
         && (forall i :: 0 <= i < |p.deny| ==> p.deny[i].val <= 0xFF && p.deny[i].mask == 0xFF)
         && forall i :: 0 <= i < |p.seeds| ==> p.seeds[i].val <= 0xFF
  }

  /** The free texts have nothing in them that is not printed. */
  predicate Speakable(m: Meta) { Showable(m.model) && Showable(m.vendor) && Showable(m.caption) }

  lemma ValidIsNamed(p: Profile)
    requires Validate(p) == Ok && Typed(p)
    ensures p.count <= 256 && Named(Canon(p))
  {
    hide RegIds, LastOnly, MdioConfig.RegistersVerdict, MetaValid, MdioConfig.SafeName, Text, MdioConfig.Distinct;
    if p.mdio {
      MdioConfig.ValidateIs(MdioPart(p));
    } else {
      LastOnlyFrom(p.seeds);
    }
    MetaCounts(p.meta, p.count);
  }

  lemma MetaCounts(m: Meta, count: nat)
    requires MetaValid(m, count)
    ensures m.version != 0 ==> m.version == 2 && |m.ids| == count
  {
  }

  lemma {:induction false} LastOnlyFrom(seeds: seq<Setting>)
    ensures forall i :: 0 <= i < |LastOnly(seeds)| ==> LastOnly(seeds)[i] in seeds
  {
    if seeds != [] {
      LastOnlyFrom(seeds[1..]);
    }
  }

  /** Prints a valid profile if everything in it can be printed and the text fits both the buffer and the reader. */
  function Format(p: Profile, cap: nat): R<Bytes>
    requires Typed(p)
  {
    hide Named, Canon, TextOf, Speakable, IdValid;
    :- Need(Validate(p) == Ok, Validate(p));
    :- Need(cap > 0, Malformed);
    :- Need(IdValid(p.name), Unsupported);
    ValidIsNamed(p);
    var c := Canon(p);
    :- Need(Speakable(c.meta) && |TextOf(c)| < cap && |TextOf(c)| <= JSON_MAX, Range);
    Good(TextOf(c))
  }
}
