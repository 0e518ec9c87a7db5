/**
 What the version 2 reader makes of a text, section by section, with the status of the first thing that is wrong.
 */
module ProfileParser {
  import opened Words
  import opened Statuses
  import opened Tokens
  import opened JsonText
  import opened ProfileModel
  import MdioConfig

  datatype R<+T> = Good(value: T) | Fail(status: Status)
  {
    predicate IsFailure() { Fail? }

    function PropagateFailure<U>(): R<U>
      requires Fail?
    {
      Fail(status)
    }

    function Extract(): T
      requires Good?
    {
      value
    }
  }

  datatype Check = Pass | Deny(status: Status)
  {
    predicate IsFailure() { Deny? }

    function PropagateFailure<U>(): R<U>
      requires Deny?
    {
      Fail(status)
    }
  }

  function Need(ok: bool, why: Status): Check { if ok then Pass else Deny(why) }

  // ----- Keys

  function RootKeys(): (k: seq<Bytes>)
    ensures |k| == 12
  {
    hide Text;
    [Text("schema_version"), Text("id"), Text("device"), Text("transport"), Text("protocol"), Text("resources"), Text("defaults"),
     Text("policy"), Text("settings"), Text("observability"), Text("register_map"), Text("view")]
  }

  function DeviceKeys(): (k: seq<Bytes>)
    ensures |k| == 4
  {
    hide Text;
    [Text("model"), Text("vendor"), Text("class"), Text("label")]
  }

  function TransportKeys(): (k: seq<Bytes>)
    ensures |k| == 4
  {
    hide Text;
    [Text("bus"), Text("controller"), Text("address"), Text("address_bits")]
  }

  function ProtocolKeys(): (k: seq<Bytes>)
    ensures |k| == 2
  {
    hide Text;
    [Text("driver"), Text("options")]
  }

  function OptionKeys(): (k: seq<Bytes>)
    ensures |k| == 6
  {
    hide Text;
    [Text("max_write_value"), Text("capture_cache_on_save"), Text("autopoll_enabled"), Text("autopoll_order"),
     Text("autopoll_reg_delay_ms"), Text("autopoll_cycle_delay_ms")]
  }

  function ResourceKeys(): (k: seq<Bytes>)
    ensures |k| == 13
  {
    hide Text;
    [Text("id"), Text("kind"), Text("address"), Text("width_bits"), Text("access"), Text("write_mask"), Text("cache"),
     Text("verify"), Text("refresh"), Text("persist_mask"), Text("read_effect"), Text("write_effect"), Text("fields")]
  }

  function DefaultsKeys(): (k: seq<Bytes>)
    ensures |k| == 1
  {
    hide Text;
    [Text("register")]
  }

  function PolicyKeys(): (k: seq<Bytes>)
    ensures |k| == 2
  {
    hide Text;
    [Text("read"), Text("write")]
  }

  function PolicyEntryKeys(): (k: seq<Bytes>)
    ensures |k| == 3
  {
    hide Text;
    [Text("mode"), Text("rules"), Text("inactive_rules")]
  }

  function RuleKeys(): (k: seq<Bytes>)
    ensures |k| == 2
  {
    hide Text;
    [Text("resource"), Text("match")]
  }

  function MatchKeys(): (k: seq<Bytes>)
    ensures |k| == 2
  {
    hide Text;
    [Text("value"), Text("mask")]
  }

  function SettingsKeys(): (k: seq<Bytes>)
    ensures |k| == 3
  {
    hide Text;
    [Text("cache_seed"), Text("desired"), Text("apply_on_startup")]
  }

  function SeedKeys(): (k: seq<Bytes>)
    ensures |k| == 2
  {
    hide Text;
    [Text("resource"), Text("value")]
  }

  function ObserveKeys(): (k: seq<Bytes>)
    ensures |k| == 2
  {
    hide Text;
    [Text("telemetry"), Text("events")]
  }

  function ModeKeys(): (k: seq<Bytes>)
    ensures |k| == 1
  {
    hide Text;
    [Text("mode")]
  }

  function ReadEffectKeys(): (k: seq<Bytes>)
    ensures |k| == 3
  {
    hide Text;
    [Text("clear_mask"), Text("latch_high_mask"), Text("latch_low_mask")]
  }

  function WriteEffectKeys(): (k: seq<Bytes>)
    ensures |k| == 5
  {
    hide Text;
    [Text("one_clear_mask"), Text("one_set_mask"), Text("self_clear_mask"), Text("fixed_mask"), Text("fixed_value")]
  }

  function RefreshKeys(): (k: seq<Bytes>)
    ensures |k| == 2
  {
    hide Text;
    [Text("on"), Text("period_ms")]
  }

  /** The members of an object view; an absent view has none. */
  function Members(view: Option<Bytes>, keys: seq<Bytes>): (r: Option<Views>)
    ensures r.Some? ==> |r.value| == |keys|
  {
    if view == None then None else Fields(view.value, keys)
  }

  /** The members of an object that may be absent. */
  function MembersIfAny(view: Option<Bytes>, keys: seq<Bytes>): (r: R<Views>)
    ensures r.Good? ==> |r.value| == |keys|
  {
    hide Fields;
    if view == None then Good(Nothing(|keys|)) else if Members(view, keys).Some? then Good(Members(view, keys).value) else Fail(Malformed)
  }

  // ----- The document

  function Document(json: Bytes): R<Bytes> {
    var start := Skip(json);
    :- Need(|json| <= JSON_MAX && start != [] && start[0] == LBRACE, Malformed);
    match Value(start, 0)
    case None => Fail(Malformed)
    case Some(rest) => if Skip(rest) == [] then Good(Ahead(start, rest)) else Fail(Malformed)
  }

  // ----- Sections

  /** Version, name and companion files. */
  function ParseHead(r: Views): R<(Bytes, Bytes, Bytes)>
    requires |r| == 12
  {
    hide Text, Spelled, Counted, IdValid, RegisterMapName, ViewName;
    :- Need(Counted(r[0], 2) == Some(2), Malformed);
    var name := Spelled(r[1], NAME_CAP);
    :- Need(name.Some? && IdValid(name.value), Malformed);
    var registers := if r[10].Some? then Spelled(r[10], ASSET_CAP) else Some([]);
    :- Need(registers.Some? && (r[10].Some? ==> registers.value != [] && RegisterMapName(registers.value)), Malformed);
    var view := if r[11].Some? then Spelled(r[11], ASSET_CAP) else Some([]);
    :- Need(view.Some? && (r[11].Some? ==> view.value != [] && ViewName(view.value) && registers.value != []), Malformed);
    Good((name.value, registers.value, view.value))
  }

  /** An optional text that must not be empty if it is there. */
  function Optional(view: Option<Bytes>, cap: nat): (r: Option<Bytes>)
    ensures cap > 0 && r.Some? ==> |r.value| < cap
  {
    if view == None then Some([])
    else
      var s := Spelled(view, cap);
      if s.Some? && s.value != [] then s else None
  }

  /** Model, vendor, class and label. */
  function ParseDevice(view: Option<Bytes>): R<(Bytes, Bytes, Bytes, Bytes)> {
    hide Text, Members, Spelled, Reads, Hexed, Counted, Flagged, EmptyList, DeviceKeys, ClassValid;
    var fields := Members(view, DeviceKeys());
    :- Need(fields.Some?, Malformed);
    var f := fields.value;
    var model, vendor, caption := Spelled(f[0], MODEL_CAP), Optional(f[1], MODEL_CAP), Optional(f[3], LABEL_CAP);
    var kind := if f[2].Some? then Spelled(f[2], CLASS_CAP) else Some(Text("generic"));
    :- Need(model.Some? && model.value != [] && vendor.Some?, Malformed);
    :- Need(kind.Some? && ClassValid(kind.value) && caption.Some?, Malformed);
    Good((model.value, vendor.value, kind.value, caption.value))
  }

  function ParseTransport(view: Option<Bytes>, mdio: bool): R<u8> {
    hide Text, Members, Spelled, Reads, Hexed, Counted, Flagged, EmptyList, TransportKeys, BusName, Controller;
    var fields := Members(view, TransportKeys());
    :- Need(fields.Some? && Reads(fields.value[0], BusName(mdio)) && Reads(fields.value[1], Controller(mdio)), Unsupported);
    var address := Hexed(fields.value[2], AddressMax(mdio));
    :- Need(address.Some?, Unsupported);
    :- Need(mdio ==> fields.value[3] == None, Malformed);
    :- Need(fields.value[3].Some? ==> Counted(fields.value[3], 7) == Some(7), Unsupported);
    Good(address.value)
  }

  function ParseProtocol(view: Option<Bytes>, mdio: bool): R<OptionViews> {
    hide Text, Members, Spelled, Reads, Hexed, Counted, Flagged, EmptyList, ProtocolKeys, OptionKeys, Driver, MembersIfAny;
    var fields := Members(view, ProtocolKeys());
    :- Need(fields.Some? && Reads(fields.value[0], Driver(mdio)), Unsupported);
    var options :- MembersIfAny(fields.value[1], OptionKeys());
    Good(options)
  }

  type OptionViews = v: Views | |v| == 6 witness Nothing(6)

  type ResourceViews = v: Views | |v| == 13 witness Nothing(13)

  datatype Options = Options(maxValue: u8, autopoll: bool, regDelay: u32, cycleDelay: u32)

  function ParseOptions(o: Views, mdio: bool): R<Options>
    requires |o| == 6
  {
    if mdio then
      var enabled := if o[2].Some? then Flagged(o[2]) else Some(false);
      var pause := if o[4].Some? then Counted(o[4], REG_DELAY_MAX) else Some(0);
      var cycle := if o[5].Some? then Counted(o[5], CYCLE_DELAY_MAX) else Some(CYCLE_DELAY);
      :- Need(o[0] == None && o[1] == None && enabled.Some? && pause.Some? && cycle.Some?, Malformed);
      Good(Options(0, enabled.value, pause.value, cycle.value))
    else
      var most := Hexed(o[0], MAX_CODE);
      :- Need(most.Some?, Malformed);
      :- Need((o[1].Some? ==> Flagged(o[1]) == Some(true)) && o[2] == o[3] == o[4] == o[5] == None, Unsupported);
      Good(Options(most.value, false, 0, 0))
  }

  function ParseDefaults(view: Option<Bytes>): R<ResourceViews> {
    hide Text, Members, Spelled, Reads, Hexed, Counted, Flagged, EmptyList, DefaultsKeys, ResourceKeys, MembersIfAny, Nothing;
    if view == None then Good(Nothing(13))
    else
      var fields := Members(view, DefaultsKeys());
      :- Need(fields.Some?, Unsupported);
      var defaults :- MembersIfAny(fields.value[0], ResourceKeys());
      :- Need(defaults[0] == None && defaults[1] == None && defaults[2] == None, Malformed);
      Good(defaults)
  }

  /** How much of a list is left to step through. */
  function Left(list: Option<Bytes>, from: Option<Bytes>): nat {
    if from.Some? then |from.value| else if list.Some? then |list.value| else 0
  }

  // ----- Resources

  predicate DriverMode(view: Option<Bytes>) {
    var f := Members(view, ModeKeys());
    f.Some? && Reads(f.value[0], Text("driver"))
  }

  predicate ZeroIfAny(view: Option<Bytes>) { view.Some? ==> Hexed(view, 0).Some? }

  predicate ZeroEffect(view: Option<Bytes>, keys: seq<Bytes>) {
    view.Some? ==>
      var f := Members(view, keys);
      f.Some? && forall i :: 0 <= i < |keys| ==> ZeroIfAny(f.value[i])
  }

  predicate NoRefresh(view: Option<Bytes>) {
    view.Some? ==>
      var f := Members(view, RefreshKeys());
      f.Some? && EmptyList(f.value[0]) && (f.value[1].Some? ==> Counted(f.value[1], 0).Some?)
  }

  /** What a resource says, with the defaults where it says nothing. */
  function Merged(f: Views, defaults: Views): (m: Views)
    requires |f| == 13 == |defaults|
    ensures |m| == 13 && forall i :: 0 <= i < 13 ==> m[i] == if i < 3 || f[i].Some? then f[i] else defaults[i]
  {
    seq(13, i requires 0 <= i < 13 => if i < 3 || f[i].Some? then f[i] else defaults[i])
  }

  /** A plain register of the bus's width, with nothing the drivers cannot do. */
  predicate Plain(f: Views, mdio: bool)
    requires |f| == 13
  {
    hide Text, Counted, Reads, Hexed, DriverMode, NoRefresh, ZeroIfAny, ZeroEffect, EmptyList;
    && Counted(f[3], Width(mdio)) == Some(Width(mdio)) && Reads(f[4], Text("rw"))
    && Hexed(f[5], Maximum(mdio)) == Some(Maximum(mdio)) && DriverMode(f[6]) && DriverMode(f[7]) && NoRefresh(f[8])
    && ZeroIfAny(f[9]) && ZeroEffect(f[10], ReadEffectKeys()) && ZeroEffect(f[11], WriteEffectKeys()) && EmptyList(f[12])
  }

  /** Ids by register, as far as they have been read, how many there are, and the room they take. */
  datatype Ids = Ids(at: Slots, count: nat, size: nat)

  type Slots = v: Views | |v| == SLOTS witness Nothing(SLOTS)

  const SLOTS := 256

  function ParseResource(view: Bytes, defaults: Views, mdio: bool, ids: Ids): R<Ids>
    requires |defaults| == 13
  {
    hide Text, Members, Spelled, Hexed, Reads, Plain, Merged, IdValid, ResourceKeys;
    var fields := Members(Some(view), ResourceKeys());
    :- Need(fields.Some?, Malformed);
    var f := fields.value;
    var id, reg := Spelled(f[0], NAME_CAP), Hexed(f[2], CountMax(mdio) - 1);
    :- Need(id.Some? && IdValid(id.value) && Reads(f[1], Text("register")) && reg.Some?, Malformed);
    :- Need(ids.at[reg.value] == None && ids.count < CountMax(mdio) && id !in ids.at, Malformed);
    var size := ids.size + |id.value| + 1;
    :- Need(size <= IDS_CAP, Range);
    :- Need(Plain(Merged(f, defaults), mdio), Unsupported);
    Good(Ids(ids.at[reg.value := id], ids.count + 1, size))
  }

  function ParseResources(list: Option<Bytes>, from: Option<Bytes>, defaults: Views, mdio: bool, ids: Ids): R<Ids>
    requires |defaults| == 13
    decreases Left(list, from)
  {
    hide Following, ParseResource;
    match Following(list, from)
    case Broken => Fail(Malformed)
    case Stop => Good(ids)
    case Item(view, rest) =>
      var next :- ParseResource(view, defaults, mdio, ids);
      ParseResources(list, Some(rest), defaults, mdio, next)
  }

  predicate NoGaps(ids: Ids) { ids.count <= SLOTS && forall k :: 0 <= k < ids.count ==> ids.at[k].Some? }

  function IdList(at: Views, n: nat): (ids: seq<Bytes>)
    requires n <= |at| && forall k :: 0 <= k < n ==> at[k].Some?
    ensures |ids| == n && forall k :: 0 <= k < n ==> Some(ids[k]) == at[k]
  {
    seq(n, k requires 0 <= k < n => at[k].value)
  }

  function ParseIds(list: Option<Bytes>, defaults: Views, mdio: bool): (r: R<seq<Bytes>>)
    requires |defaults| == 13
    ensures r.Good? ==> 0 < |r.value| <= SLOTS
  {
    hide ParseResources;
    var ids :- ParseResources(list, None, defaults, mdio, Ids(Nothing(SLOTS), 0, 1));
    :- Need(ids.count > 0, Malformed);
    :- Need(NoGaps(ids), Unsupported);
    Good(IdList(ids.at, ids.count))
  }

  /** The register an id names. */
  function Lookup(view: Option<Bytes>, ids: seq<Bytes>): (r: Option<nat>)
    ensures r.Some? ==> r.value < |ids|
  {
    match Spelled(view, NAME_CAP)
    case None => None
    case Some(s) => if IndexOf(ids, s) < |ids| then Some(IndexOf(ids, s)) else None
  }

  function ParseOrder(list: Option<Bytes>, from: Option<Bytes>, ids: seq<Bytes>, polled: seq<u8>): R<seq<u8>>
    requires |ids| <= 256
    decreases Left(list, from)
  {
    hide Following, ParseResource;
    match Following(list, from)
    case Broken => Fail(Malformed)
    case Stop => Good(polled)
    case Item(view, rest) =>
      var reg := Lookup(Some(view), ids);
      :- Need(reg.Some? && reg.value !in polled && |polled| < 32, Malformed);
      ParseOrder(list, Some(rest), ids, polled + [reg.value])
  }

  // ----- Policy

  function ParseRule(view: Bytes, ids: seq<Bytes>, mdio: bool, maxValue: nat): R<Rule>
    requires |ids| <= 256
  {
    var f := Members(Some(view), RuleKeys());
    :- Need(f.Some? && Lookup(f.value[0], ids).Some?, Malformed);
    var m := if f.value[1] == None then Some(Nothing(2)) else Members(f.value[1], MatchKeys());
    :- Need(m.Some?, Malformed);
    var given := m.value[0].Some? || m.value[1].Some?;
    var val := if given then Hexed(m.value[0], Maximum(mdio)) else Some(0);
    var mask := if given then Hexed(m.value[1], Maximum(mdio)) else Some(0);
    :- Need(val.Some? && mask.Some?, Malformed);
    :- Need(!mdio ==> mask.value == 0xFF, Unsupported);
    :- Need(!mdio ==> val.value <= maxValue, Range);
    Good(MdioConfig.Rule(Lookup(f.value[0], ids).value, val.value, mask.value))
  }

  function ParseRules(list: Option<Bytes>, from: Option<Bytes>, ids: seq<Bytes>, mdio: bool, maxValue: nat, rules: seq<Rule>): R<seq<Rule>>
    requires |ids| <= 256
    decreases Left(list, from)
  {
    hide Following, ParseResource;
    match Following(list, from)
    case Broken => Fail(Malformed)
    case Stop => Good(rules)
    case Item(view, rest) =>
      :- Need(|rules| < RulesMax(mdio), Malformed);
      var rule :- ParseRule(view, ids, mdio, maxValue);
      ParseRules(list, Some(rest), ids, mdio, maxValue, rules + [rule])
  }

  /** The write mode, and the views of the two lists: what is allowed, what is denied. */
  function ParsePolicy(view: Option<Bytes>): R<(bool, Option<Bytes>, Option<Bytes>)> {
    hide ModeName, Members, Reads, EmptyList, PolicyKeys, PolicyEntryKeys;
    var policies := Members(view, PolicyKeys());
    :- Need(policies.Some?, Unsupported);
    var read := Members(policies.value[0], PolicyEntryKeys());
    :- Need(read.Some? && Reads(read.value[0], ModeName(true)) && EmptyList(read.value[1]) && EmptyList(read.value[2]), Unsupported);
    if policies.value[1] == None then Good((false, None, None))
    else
      var write := Members(policies.value[1], PolicyEntryKeys());
      :- Need(write.Some?, Malformed);
      var black := Reads(write.value[0], ModeName(true));
      :- Need(black || Reads(write.value[0], ModeName(false)), Malformed);
      Good(if black then (true, write.value[2], write.value[1]) else (false, write.value[1], write.value[2]))
  }

  // ----- Settings and observability

  function ParseSeed(view: Bytes, ids: seq<Bytes>, mdio: bool): R<Setting>
    requires |ids| <= 256
  {
    var f := Members(Some(view), SeedKeys());
    :- Need(f.Some? && Lookup(f.value[0], ids).Some? && Hexed(f.value[1], Maximum(mdio)).Some?, Malformed);
    Good(MdioConfig.Setting(Lookup(f.value[0], ids).value, Hexed(f.value[1], Maximum(mdio)).value))
  }

  function ParseSeeds(list: Option<Bytes>, from: Option<Bytes>, ids: seq<Bytes>, mdio: bool, seeds: seq<Setting>): R<seq<Setting>>
    requires |ids| <= 256
    decreases Left(list, from)
  {
    hide Following, ParseResource;
    match Following(list, from)
    case Broken => Fail(Malformed)
    case Stop => Good(seeds)
    case Item(view, rest) =>
      var seed :- ParseSeed(view, ids, mdio);
      :- Need(|seeds| < SeedsMax(mdio) && seed.reg !in MdioConfig.SettingRegs(seeds), Malformed);
      ParseSeeds(list, Some(rest), ids, mdio, seeds + [seed])
  }

  function ParseSettings(view: Option<Bytes>, ids: seq<Bytes>, mdio: bool): R<seq<Setting>>
    requires |ids| <= 256
  {
    hide Text, Members, Spelled, Reads, Hexed, Counted, Flagged, EmptyList, SettingsKeys;
    if view == None then Good([])
    else
      var f := Members(view, SettingsKeys());
      :- Need(f.Some? && EmptyList(f.value[1]) && (f.value[2].Some? ==> Flagged(f.value[2]) == Some(false)), Unsupported);
      ParseSeeds(f.value[0], None, ids, mdio, [])
  }

  function ParseObservability(view: Option<Bytes>): Check {
    if view == None then Pass
    else
      var f := Members(view, ObserveKeys());
      if f == None then Deny(Malformed)
      else Need(forall i :: 0 <= i < 2 ==> (f.value[i].Some? ==> Flagged(f.value[i]) == Some(true)), Unsupported)
  }

  // ----- The whole profile

  function ParseViews(r: Views, mdio: bool): R<Profile>
    requires |r| == 12
  {
    hide ParseHead, ParseDevice, ParseTransport, ParseProtocol, ParseOptions, ParseDefaults, ParseIds, ParseOrder, ParsePolicy, ParseRules,
      ParseSettings, ParseObservability, Validate, Text;
    var (name, registers, view) :- ParseHead(r);
    var (model, vendor, kind, caption) :- ParseDevice(r[2]);
    var address :- ParseTransport(r[3], mdio);
    var options :- ParseProtocol(r[4], mdio);
    var o :- ParseOptions(options, mdio);
    var defaults :- ParseDefaults(r[6]);
    var ids :- ParseIds(r[5], defaults, mdio);
    var polled :- if mdio then ParseOrder(options[3], None, ids, []) else Good([]);
    var (black, allowed, denied) :- ParsePolicy(r[7]);
    var white :- ParseRules(allowed, None, ids, mdio, o.maxValue, []);
    var deny :- ParseRules(denied, None, ids, mdio, o.maxValue, []);
    var seeds :- ParseSettings(r[8], ids, mdio);
    :- ParseObservability(r[9]);
    var p := Profile(mdio, name, address, |ids|, o.maxValue, o.autopoll, polled, o.regDelay, o.cycleDelay, black, white, deny, seeds,
                     Meta(2, vendor, model, kind, caption, registers, view, ids));
    :- Need(Validate(p) == Ok, Validate(p));
    Good(p)
  }

  function ParseProfile(json: Bytes, mdio: bool): R<Profile> {
    hide Fields, RootKeys, Document, ParseViews;
    var root :- Document(json);
    match Fields(root, RootKeys())
    case None => Fail(Malformed)
    case Some(r) => ParseViews(r, mdio)
  }
}
