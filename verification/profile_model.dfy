/**
 Device profiles of version 2: what a profile says of a device on either bus, and which ones are sound.
 */
module ProfileModel {
  import opened Words
  import opened Statuses
  import opened Utf8
  import opened Tokens
  import opened JsonText
  import MdioConfig

  type Rule = MdioConfig.Rule
  type Setting = MdioConfig.Setting

  const JSON_MAX := 65536
  const IDS_CAP := 2048
  const NAME_CAP := 32
  const MODEL_CAP := 65
  const CLASS_CAP := 16
  const LABEL_CAP := 97
  const ASSET_CAP := 64
  const MAX_CODE := 64
  const REG_DELAY_MAX := 60000
  const CYCLE_DELAY_MAX := 600000
  const CYCLE_DELAY := 50

  /** What the file says beyond the bus; version 0 is a profile that was read from the older format. */
  datatype Meta = Meta(version: nat, vendor: Bytes, model: Bytes, kind: Bytes, caption: Bytes, registerMap: Bytes, view: Bytes,
                       ids: seq<Bytes>)

  /** A device on either bus. Polling belongs to MDIO, the bound on written values to I2C. */
  datatype Profile = Profile(mdio: bool, name: Bytes, address: u8, count: nat, maxValue: u8, autopoll: bool, polled: seq<u8>,
                             regDelay: u32, cycleDelay: u32, black: bool, white: seq<Rule>, deny: seq<Rule>,
                             seeds: seq<Setting>, meta: Meta)

  function AddressMax(mdio: bool): nat { if mdio then 31 else 127 }

  function CountMax(mdio: bool): nat { if mdio then 32 else 256 }

  /** Bits of a register, and the greatest value it holds. */
  function Width(mdio: bool): nat { if mdio then 16 else 8 }

  function Maximum(mdio: bool): nat { if mdio then 0xFFFF else 0xFF }

  function RulesMax(mdio: bool): nat { if mdio then 64 else 256 }

  function SeedsMax(mdio: bool): nat { if mdio then 32 else 256 }

  function BusName(mdio: bool): Bytes { if mdio then Text("mdio") else Text("i2c") }

  function Controller(mdio: bool): Bytes { if mdio then Text("pl_mdio_0") else Text("pl_i2c_0") }

  function Driver(mdio: bool): Bytes { if mdio then Text("bvstk_mdio_bridge") else Text("bvstk_i2c_bridge") }

  function ModeName(black: bool): Bytes { if black then Text("blacklist") else Text("whitelist") }

  // ----- Names

  predicate Lower(c: u8) { 'a' as int <= c <= 'z' as int }

  predicate IdChar(c: u8) { Lower(c) || Digit(c) || c == '_' as int || c == '-' as int }

  predicate IdValid(s: Bytes) { 0 < |s| < NAME_CAP && Lower(s[0]) && forall i :: 0 <= i < |s| ==> IdChar(s[i]) }

  function ClassNames(): seq<Bytes> {
    [Text("generic"), Text("phy"), Text("power"), Text("gpio"), Text("sensor"), Text("memory"), Text("storage"), Text("bridge"),
     Text("serial")]
  }

  predicate ClassValid(s: Bytes) { s in ClassNames() }

  predicate AssetChar(c: u8) { Lower(c) || 'A' as int <= c <= 'Z' as int || Digit(c) || c == '_' as int || c == '-' as int }

  predicate EndsWith(s: Bytes, suffix: Bytes) { |s| >= |suffix| && s[|s| - |suffix|..] == suffix }

  predicate AssetName(s: Bytes, suffix: Bytes) {
    s == [] || (suffix != [] && |suffix| < |s| < ASSET_CAP && EndsWith(s, suffix)
                && forall i :: 0 <= i < |s| - |suffix| ==> AssetChar(s[i]))
  }

  function Lowered(s: Bytes): (r: Bytes)
    ensures |r| == |s|
  {
    if s == [] then [] else [if 'A' as int <= s[0] <= 'Z' as int then s[0] + 32 else s[0]] + Lowered(s[1..])
  }

  /** A file that describes registers, by its name. */
  predicate RegisterMapFile(s: Bytes) { s == MapFile() || (|s| > |MapSuffix()| && Lowered(s[|s| - |MapSuffix()|..]) == MapSuffix()) }

  function MapFile(): Bytes { Text("register_map.json") }

  function MapSuffix(): Bytes { Text("_register_map.json") }

  predicate RegisterMapName(s: Bytes) { AssetName(s, Text(".json")) && (s == [] || RegisterMapFile(s)) }

  predicate ViewName(s: Bytes) { AssetName(s, Text(".js")) }

  // ----- Resource ids

  predicate DistinctIds(ids: seq<Bytes>) { forall i, j :: 0 <= i < j < |ids| ==> ids[i] != ids[j] }

  /** The room the ids take, one terminator each. */
  function IdsSize(ids: seq<Bytes>): nat { if ids == [] then 0 else |ids[0]| + 1 + IdsSize(ids[1..]) }

  predicate IdsValid(ids: seq<Bytes>) { DistinctIds(ids) && forall i :: 0 <= i < |ids| ==> IdValid(ids[i]) }

  // ----- Validity

  /** The checks on the metadata, as both configuration validators end with them. */
  predicate MetaValid(m: Meta, count: nat) {
    && RegisterMapName(m.registerMap) && ViewName(m.view) && (m.view != [] ==> m.registerMap != [])
    && (m.version == 0 ||
        (m.version == 2 && 0 < count == |m.ids| && |m.vendor| < MODEL_CAP && 0 < |m.model| < MODEL_CAP && |m.kind| < CLASS_CAP
         && |m.caption| < LABEL_CAP && ClassValid(m.kind) && 1 + IdsSize(m.ids) <= IDS_CAP && IdsValid(m.ids)))
  }

  predicate RuleFits(r: Rule, count: nat, mdio: bool, maxValue: nat) {
    r.reg < count && if mdio then true else r.mask == 0xFF && r.val <= maxValue
  }

  predicate RulesFit(rules: seq<Rule>, count: nat, mdio: bool, maxValue: nat) {
    |rules| <= RulesMax(mdio) && forall i :: 0 <= i < |rules| ==> RuleFits(rules[i], count, mdio, maxValue)
  }

  /** The bus-facing part of an MDIO profile. */
  function MdioPart(p: Profile): (c: MdioConfig.Config)
    requires p.count < 0x100
  {
    MdioConfig.Config(p.name, p.address, p.count, if p.black then MdioConfig.Blacklist else MdioConfig.Whitelist, p.autopoll,
                      p.polled, p.regDelay, p.cycleDelay, p.white, p.deny, p.seeds)
  }

  /** What the I2C validator asks of the bus-facing part. */
  function ValidateI2c(p: Profile): Status {
    if p.name == [] || |p.name| >= NAME_CAP || p.address > 0x7F || p.count == 0 || p.count > 256 || p.maxValue > MAX_CODE
       || |p.white| > 256 || |p.deny| > 256 || |p.seeds| > 256 then Malformed
    else if (exists i :: 0 <= i < |p.white| && !(p.white[i].reg < p.count && p.white[i].val <= p.maxValue))
         || (exists i :: 0 <= i < |p.deny| && !(p.deny[i].reg < p.count && p.deny[i].val <= p.maxValue))
         || (exists i :: 0 <= i < |p.seeds| && !(p.seeds[i].reg < p.count)) then Range
    else Ok
  }

  /** The whole validator of either bus. */
  function Validate(p: Profile): Status {
    var bus := if !p.mdio then ValidateI2c(p) else if p.count >= 0x100 then Malformed else MdioConfig.Validate(MdioPart(p));
    if bus != Ok then bus else if MetaValid(p.meta, p.count) then Ok else Malformed
  }

  predicate Spellable(s: Bytes, cap: nat) { |s| < cap && Utf8Valid(s) && Showable(s) }

  predicate SeedsFit(seeds: seq<Setting>, count: nat, mdio: bool) {
    && |seeds| <= SeedsMax(mdio) && MdioConfig.Distinct(MdioConfig.SettingRegs(seeds))
    && forall i :: 0 <= i < |seeds| ==> seeds[i].reg < count && seeds[i].val <= Maximum(mdio)
  }

  /** A profile of version 2 as the reader leaves it. */
  predicate Sound(p: Profile) {
    && p.meta.version == 2 && IdValid(p.name) && p.address <= AddressMax(p.mdio) && 0 < p.count <= CountMax(p.mdio)
    && MetaValid(p.meta, p.count) && Spellable(p.meta.model, MODEL_CAP) && Spellable(p.meta.vendor, MODEL_CAP)
    && Spellable(p.meta.caption, LABEL_CAP)
    && RulesFit(p.white, p.count, p.mdio, p.maxValue) && RulesFit(p.deny, p.count, p.mdio, p.maxValue)
    && SeedsFit(p.seeds, p.count, p.mdio)
    && (forall i :: 0 <= i < |p.polled| ==> p.polled[i] < p.count) && MdioConfig.Distinct(p.polled)
    && (if p.mdio then |p.polled| <= 32 && p.regDelay <= REG_DELAY_MAX && p.cycleDelay <= CYCLE_DELAY_MAX && p.maxValue == 0
        else p.polled == [] && !p.autopoll && p.regDelay == 0 && p.cycleDelay == 0 && p.maxValue <= MAX_CODE)
  }

  /** Sound profiles pass the validator of their bus. */
  lemma SoundIsValid(p: Profile)
    requires Sound(p)
    ensures Validate(p) == Ok
  {
    hide MetaValid, MdioConfig.Validate, Spellable;
    if p.mdio {
      IdIsSafe(p.name);
      MdioConfig.ValidateIs(MdioPart(p));
    }
  }

  lemma IdIsSafe(s: Bytes)
    requires IdValid(s)
    ensures MdioConfig.SafeName(s)
  {
    forall i | 0 <= i < |s| ensures MdioConfig.SafeChar(s[i]) && s[i] != '.' as int { assert IdChar(s[i]); }
  }
}
