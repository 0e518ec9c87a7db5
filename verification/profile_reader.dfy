/**
 The version 2 reader as it runs: views cut out of the text, loops over the lists, and the first thing that is wrong
 returned at once; proved against the parsing functions.
 */
module ProfileReader {
  import opened Words
  import opened Statuses
  import opened Tokens
  import opened JsonText
  import opened ProfileModel
  import opened ProfileParser
  import JsonDocs
  import JsonScanner
  import SchemaProbe
  import MdioConfig

  // ----- Views

  lemma AheadAt(b: Bytes, start: nat, at: nat)
    requires start <= at <= |b|
    ensures Ahead(b[start..], b[at..]) == b[start..at]
  {
  }

  method Document(json: Bytes) returns (r: R<Bytes>)
    ensures r == ProfileParser.Document(json)
  {
    hide Skip, Value, Ahead, JsonScanner.Scanner.Rest;
    if |json| > JSON_MAX {
      return Fail(Malformed);
    }
    var p := new JsonScanner.Scanner(json);
    p.Ws();
    p.Ahead(0);
    if p.at == |json| {
      return Fail(Malformed);
    }
    p.Ahead(1);
    if json[p.at] != LBRACE {
      return Fail(Malformed);
    }
    var start := p.at;
    var ok := p.Value(0);
    if !ok {
      return Fail(Malformed);
    }
    p.Ahead(0);
    AheadAt(json, start, p.at);
    r := Good(json[start..p.at]);
    p.Ws();
    p.Ahead(0);
    if p.at != |json| {
      r := Fail(Malformed);
    }
  }

  /** The number of a key among the known ones. */
  method Find(keys: seq<Bytes>, key: Bytes) returns (i: nat)
    ensures i == IndexOf(keys, key)
  {
    i := 0;
    while i < |keys| && keys[i] != key
      invariant i <= |keys| && IndexOf(keys, key) == i + IndexOf(keys[i..], key)
    {
      assert keys[i..][1..] == keys[i + 1..];
      i := i + 1;
    }
    assert i < |keys| ==> keys[i..][0] == keys[i];
  }

  /** One member: its key, which must be known and new, and its value. */
  method Member(p: JsonScanner.Scanner, keys: seq<Bytes>, got: Views) returns (ok: bool, i: nat, view: Bytes)
    requires p.Valid() && |got| == |keys|
    modifies p
    ensures p.Valid() && (ok ==> i < |keys| && p.at > old(p.at))
    ensures match MemberOf(old(p.Rest()), keys, got)
            case None => !ok
            case Some((k, v, rest)) => ok && i == k && view == v && p.Rest() == rest
  {
    hide Skip, Value, StrIn, IndexOf, Ahead;
    var key;
    i, view := 0, [];
    ok, key := p.Str(Some(KEY_MAX));
    if !ok {
      return;
    }
    i := Find(keys, key);
    p.Ws();
    if i == |keys| || got[i].Some? || p.at == |p.text| || p.text[p.at] != COLON {
      return false, i, view;
    }
    p.Ahead(1);
    p.at := p.at + 1;
    p.Ws();
    var start := p.at;
    ok := p.Value(1);
    if ok {
      AheadAt(p.text, start, p.at);
      view := p.text[start..p.at];
    }
  }

  /** The values of an object's members by key. */
  method Fields(view: Bytes, keys: seq<Bytes>) returns (r: Option<Views>)
    ensures r == JsonText.Fields(view, keys)
  {
    hide Skip, FieldsFrom, Nothing, JsonScanner.Scanner.Rest;
    var p := new JsonScanner.Scanner(view);
    if view == [] || view[0] != LBRACE {
      return None;
    }
    p.Ahead(1);
    p.at := p.at + 1;
    p.Ahead(0);
    p.Ws();
    p.Ahead(if p.at < |view| then 1 else 0);
    if p.at < |view| && view[p.at] == RBRACE {
      return if p.at + 1 == |view| then Some(Nothing(|keys|)) else None;
    }
    r := Inside(p, keys);
  }

  /** The members up to the end of the object, which is the end of the text. */
  method Inside(p: JsonScanner.Scanner, keys: seq<Bytes>) returns (r: Option<Views>)
    requires p.Valid()
    modifies p
    ensures p.Valid() && r == FieldsFrom(old(p.Rest()), keys, Nothing(|keys|))
  {
    hide Skip, MemberOf, FieldsFrom, Nothing;
    var got := Nothing(|keys|);
    while true
      invariant p.Valid() && |got| == |keys| && FieldsFrom(old(p.Rest()), keys, Nothing(|keys|)) == FieldsFrom(p.Rest(), keys, got)
      decreases |p.text| - p.at
    {
      FieldsOn(p.Rest(), keys, got);
      var ok, i, v := Member(p, keys, got);
      if !ok {
        return None;
      }
      got := got[i := Some(v)];
      p.Ws();
      if p.at == |p.text| {
        return None;
      }
      if p.text[p.at] == RBRACE {
        return if p.at + 1 == |p.text| then Some(got) else None;
      }
      if p.text[p.at] != COMMA {
        return None;
      }
      p.Ahead(1);
      p.at := p.at + 1;
      p.Ws();
    }
  }

  /** A member that can be taken up: the number of its key, its value and what is left. */
  function MemberOf(b: Bytes, keys: seq<Bytes>, got: Views): (r: Option<(nat, Bytes, Bytes)>)
    requires |got| == |keys|
    ensures r.Some? ==> r.value.0 < |keys|
  {
    hide Skip, IndexOf;
    match StrIn(b, KEY_MAX)
    case None => None
    case Some((key, behind)) =>
      var i, c := IndexOf(keys, key), Skip(behind);
      if i == |keys| || got[i].Some? || c == [] || c[0] != COLON then None
      else
        var v := Skip(c[1..]);
        match Value(v, 1)
        case None => None
        case Some(rest) => Some((i, Ahead(v, rest), rest))
  }

  lemma FieldsOn(b: Bytes, keys: seq<Bytes>, got: Views)
    requires |got| == |keys|
    ensures var m := MemberOf(b, keys, got);
      if m == None then FieldsFrom(b, keys, got) == None
      else
        var (i, v, rest) := m.value;
        var w, next := Skip(rest), got[i := Some(v)];
        FieldsFrom(b, keys, got) ==
        if w == [] then None
        else if w[0] == RBRACE then (if |w| == 1 then Some(next) else None)
        else if w[0] == COMMA then FieldsFrom(Skip(w[1..]), keys, next)
        else None
  {
    hide Skip, Value, IndexOf, StrIn;
  }

  /** The item that starts here, or the end of the list. */
  method ItemHere(p: JsonScanner.Scanner) returns (s: Step)
    requires p.Valid()
    modifies p
    ensures p.Valid() && s == ItemAt(old(p.Rest()))
  {
    hide Value, Ahead;
    if p.at < |p.text| && p.text[p.at] == RBRACKET {
      return if p.at + 1 == |p.text| then Stop else Broken;
    }
    var start := p.at;
    var ok := p.Value(1);
    if !ok {
      return Broken;
    }
    AheadAt(p.text, start, p.at);
    s := Item(p.text[start..p.at], p.text[p.at..]);
  }

  /** The next item of a list, from its start or from where the last one ended. */
  method Next(list: Bytes, from: Option<Bytes>) returns (s: Step)
    ensures s == JsonText.Next(list, from)
  {
    hide Skip, ItemAt;
    var p := new JsonScanner.Scanner(if from.Some? then from.value else list);
    if from.None? {
      if p.at == |p.text| || p.text[p.at] != LBRACKET {
        return Broken;
      }
    } else {
      p.Ws();
      if p.at == |p.text| || (p.text[p.at] != COMMA && p.text[p.at] != RBRACKET) {
        return Broken;
      }
      if p.text[p.at] == RBRACKET {
        s := ItemHere(p);
        return;
      }
    }
    p.Ahead(1);
    p.at := p.at + 1;
    p.Ws();
    s := ItemHere(p);
  }

  /** Digits to a base, as long as the number stays within the bound. */
  method Tally(b: Bytes, max: nat, base: nat) returns (r: Option<nat>)
    requires base > 0
    ensures r == Tallied(b, 0, max, base)
  {
    hide Tallied, HexValue;
    var i: nat, n: nat := 0, 0;
    assert b[0..] == b;
    while i < |b|
      invariant 0 <= i <= |b| && n <= max && Tallied(b, 0, max, base) == Tallied(b[i..], n, max, base)
    {
      JsonDocs.TalliedStep(b[i..], n, max, base);
      assert b[i..][0] == b[i] && b[i..][1..] == b[i + 1..];
      var d := HexValue(b[i]);
      if d < 0 || d >= base || d > max || n > (max - d) / base {
        return None;
      }
      n := n * base + d;
      i := i + 1;
    }
    JsonDocs.TalliedStep(b[i..], n, max, base);
    r := Some(n);
  }

  /** The text of a string view that fits a buffer and can be shown. */
  method Spell(view: Option<Bytes>, cap: nat) returns (r: Option<Bytes>)
    ensures r == Spelled(view, cap)
  {
    hide StrIn;
    if view == None {
      return None;
    }
    var p := new JsonScanner.Scanner(view.value);
    var ok, s := p.Str(Some(cap));
    if !ok || p.at != |p.text| {
      return None;
    }
    var i := 0;
    while i < |s|
      invariant 0 <= i <= |s| && forall k :: 0 <= k < i ==> s[k] >= 32 && s[k] != 127
    {
      if s[i] < 32 || s[i] == 127 {
        return None;
      }
      i := i + 1;
    }
    r := Some(s);
  }

  method Hex(view: Option<Bytes>, max: nat) returns (r: Option<nat>)
    ensures r == Hexed(view, max)
  {
    hide Spelled, Tallied;
    var s := Spell(view, HEX_CAP);
    if s == None || |s.value| < 3 || s.value[0] != ZERO || s.value[1] != 'x' as int {
      return None;
    }
    r := Tally(s.value[2..], max, 16);
  }

  method Number(view: Option<Bytes>, max: nat) returns (r: Option<nat>)
    ensures r == Counted(view, max)
  {
    hide Tallied;
    if view == None || view.value == [] || (|view.value| > 1 && view.value[0] == ZERO) {
      return None;
    }
    r := Tally(view.value, max, 10);
  }

  /** The register an id names. */
  method Reference(view: Option<Bytes>, ids: seq<Bytes>) returns (reg: Option<nat>)
    ensures reg == Lookup(view, ids)
  {
    hide Spelled, IndexOf;
    var s := Spell(view, NAME_CAP);
    if s == None {
      return None;
    }
    var i := Find(ids, s.value);
    reg := if i < |ids| then Some(i) else None;
  }

  // ----- Lists

  /** The next item of a list that may be absent. */
  method Following(list: Option<Bytes>, from: Option<Bytes>) returns (s: Step)
    ensures s == JsonText.Following(list, from)
  {
    hide JsonText.Next;
    if list == None {
      return Stop;
    }
    s := Next(list.value, from);
  }

  /** One resource: a register no other resource has named, under an id of its own, with nothing special about it. */
  method Resource(view: Bytes, defaults: Views, mdio: bool, ids: Ids) returns (r: R<Ids>)
    requires |defaults| == 13
    ensures r == ParseResource(view, defaults, mdio, ids)
  {
    hide JsonText.Fields, Spelled, Hexed, Reads, Plain, Merged, IdValid, ResourceKeys, Text;
    var f := Fields(view, ResourceKeys());
    if f == None {
      return Fail(Malformed);
    }
    var id := Spell(f.value[0], NAME_CAP);
    if id == None || !IdValid(id.value) || !Reads(f.value[1], Text("register")) {
      return Fail(Malformed);
    }
    var reg := Hex(f.value[2], CountMax(mdio) - 1);
    if reg == None || ids.at[reg.value].Some? || ids.count >= CountMax(mdio) || id in ids.at {
      return Fail(Malformed);
    }
    var size := ids.size + |id.value| + 1;
    if size > IDS_CAP {
      return Fail(Range);
    }
    if !Plain(Merged(f.value, defaults), mdio) {
      return Fail(Unsupported);
    }
    r := Good(Ids(ids.at[reg.value := id], ids.count + 1, size));
  }

  method Rule(view: Bytes, ids: seq<Bytes>, mdio: bool, maxValue: nat) returns (r: R<ProfileModel.Rule>)
    requires |ids| <= 256
    ensures r == ParseRule(view, ids, mdio, maxValue)
  {
    hide JsonText.Fields, Hexed, Lookup, RuleKeys, MatchKeys;
    var f := Fields(view, RuleKeys());
    if f == None {
      return Fail(Malformed);
    }
    var reg := Reference(f.value[0], ids);
    if reg == None {
      return Fail(Malformed);
    }
    var val, mask := Some(0), Some(0);
    if f.value[1].Some? {
      var m := Fields(f.value[1].value, MatchKeys());
      if m == None {
        return Fail(Malformed);
      }
      if m.value[0].Some? || m.value[1].Some? {
        val := Hex(m.value[0], Maximum(mdio));
        mask := Hex(m.value[1], Maximum(mdio));
        if val == None || mask == None {
          return Fail(Malformed);
        }
      }
    }
    if !mdio && mask.value != 0xFF {
      return Fail(Unsupported);
    }
    if !mdio && val.value > maxValue {
      return Fail(Range);
    }
    r := Good(MdioConfig.Rule(reg.value, val.value, mask.value));
  }

  method Seed(view: Bytes, ids: seq<Bytes>, mdio: bool) returns (r: R<Setting>)
    requires |ids| <= 256
    ensures r == ParseSeed(view, ids, mdio)
  {
    hide JsonText.Fields, Hexed, Lookup, SeedKeys;
    var f := Fields(view, SeedKeys());
    if f == None {
      return Fail(Malformed);
    }
    var reg := Reference(f.value[0], ids);
    var val := Hex(f.value[1], Maximum(mdio));
    if reg == None || val == None {
      return Fail(Malformed);
    }
    r := Good(MdioConfig.Setting(reg.value, val.value));
  }

  method Resources(list: Option<Bytes>, defaults: Views, mdio: bool) returns (r: R<Ids>)
    requires |defaults| == 13
    ensures r == ParseResources(list, None, defaults, mdio, Ids(Nothing(SLOTS), 0, 1))
  {
    hide JsonText.Following, ParseResource, Nothing;
    var ids := Ids(Nothing(SLOTS), 0, 1);
    var from := None;
    ghost var whole := ParseResources(list, from, defaults, mdio, ids);
    while true
      invariant whole == ParseResources(list, from, defaults, mdio, ids)
      decreases Left(list, from)
    {
      var s := Following(list, from);
      if s == Broken {
        return Fail(Malformed);
      }
      if s == Stop {
        return Good(ids);
      }
      ids :- Resource(s.view, defaults, mdio, ids);
      from := Some(s.rest);
    }
  }

  method Order(list: Option<Bytes>, ids: seq<Bytes>) returns (r: R<seq<u8>>)
    requires |ids| <= 256
    ensures r == ParseOrder(list, None, ids, [])
  {
    hide JsonText.Following, Lookup;
    var polled: seq<u8>, from := [], None;
    ghost var whole := ParseOrder(list, from, ids, polled);
    while true
      invariant whole == ParseOrder(list, from, ids, polled)
      decreases Left(list, from)
    {
      var s := Following(list, from);
      if s == Broken {
        return Fail(Malformed);
      }
      if s == Stop {
        return Good(polled);
      }
      var reg := Reference(Some(s.view), ids);
      if reg == None || reg.value in polled || |polled| >= 32 {
        return Fail(Malformed);
      }
      polled, from := polled + [reg.value], Some(s.rest);
    }
  }

  method Rules(list: Option<Bytes>, ids: seq<Bytes>, mdio: bool, maxValue: nat) returns (r: R<seq<ProfileModel.Rule>>)
    requires |ids| <= 256
    ensures r == ParseRules(list, None, ids, mdio, maxValue, [])
  {
    hide JsonText.Following, ParseRule;
    var rules: seq<ProfileModel.Rule>, from := [], None;
    ghost var whole := ParseRules(list, from, ids, mdio, maxValue, rules);
    while true
      invariant whole == ParseRules(list, from, ids, mdio, maxValue, rules)
      decreases Left(list, from)
    {
      var s := Following(list, from);
      if s == Broken {
        return Fail(Malformed);
      }
      if s == Stop {
        return Good(rules);
      }
      if |rules| >= RulesMax(mdio) {
        return Fail(Malformed);
      }
      var rule :- Rule(s.view, ids, mdio, maxValue);
      rules, from := rules + [rule], Some(s.rest);
    }
  }

  method Seeds(list: Option<Bytes>, ids: seq<Bytes>, mdio: bool) returns (r: R<seq<Setting>>)
    requires |ids| <= 256
    ensures r == ParseSeeds(list, None, ids, mdio, [])
  {
    hide JsonText.Following, ParseSeed, MdioConfig.SettingRegs;
    var seeds: seq<Setting>, from := [], None;
    ghost var whole := ParseSeeds(list, from, ids, mdio, seeds);
    while true
      invariant whole == ParseSeeds(list, from, ids, mdio, seeds)
      decreases Left(list, from)
    {
      var s := Following(list, from);
      if s == Broken {
        return Fail(Malformed);
      }
      if s == Stop {
        return Good(seeds);
      }
      var seed :- Seed(s.view, ids, mdio);
      if |seeds| >= SeedsMax(mdio) || seed.reg in MdioConfig.SettingRegs(seeds) {
        return Fail(Malformed);
      }
      seeds, from := seeds + [seed], Some(s.rest);
    }
  }

  method Settings(view: Option<Bytes>, ids: seq<Bytes>, mdio: bool) returns (r: R<seq<Setting>>)
    requires |ids| <= 256
    ensures r == ParseSettings(view, ids, mdio)
  {
    hide JsonText.Fields, SettingsKeys, ParseSeeds, EmptyList, Flagged;
    if view == None {
      return Good([]);
    }
    var f := Fields(view.value, SettingsKeys());
    if f == None || !EmptyList(f.value[1]) || (f.value[2].Some? && Flagged(f.value[2]) != Some(false)) {
      return Fail(Unsupported);
    }
    r := Seeds(f.value[0], ids, mdio);
  }

  // ----- The whole profile

  method Head(r: Views) returns (h: R<(Bytes, Bytes, Bytes)>)
    requires |r| == 12
    ensures h == ParseHead(r)
  {
    hide Spelled, Counted, IdValid, RegisterMapName, ViewName;
    var n := Number(r[0], 2);
    var name := Spell(r[1], NAME_CAP);
    if n != Some(2) || name == None || !IdValid(name.value) {
      return Fail(Malformed);
    }
    var registers, view: Option<Bytes> := Some([]), Some([]);
    if r[10].Some? {
      registers := Spell(r[10], ASSET_CAP);
      if registers == None || registers.value == [] || !RegisterMapName(registers.value) {
        return Fail(Malformed);
      }
    }
    if r[11].Some? {
      view := Spell(r[11], ASSET_CAP);
      if view == None || view.value == [] || !ViewName(view.value) || registers.value == [] {
        return Fail(Malformed);
      }
    }
    h := Good((name.value, registers.value, view.value));
  }

  method Parse(json: Bytes, mdio: bool) returns (r: R<Profile>)
    ensures r == ParseProfile(json, mdio)
  {
    hide ProfileParser.Document, JsonText.Fields, ParseViews, RootKeys;
    var root :- Document(json);
    var views := Fields(root, RootKeys());
    if views == None {
      return Fail(Malformed);
    }
    r := Sections(views.value, mdio);
  }

  method Sections(r: Views, mdio: bool) returns (result: R<Profile>)
    requires |r| == 12
    ensures result == ParseViews(r, mdio)
  {
    hide ParseHead, ParseDevice, ParseTransport, ParseProtocol, ParseOptions, ParseDefaults, ParseResources, ParseOrder, ParsePolicy, ParseRules,
      ParseSettings, ParseObservability, Validate, Nothing, IdList;
    var head :- Head(r);
    var device :- ParseDevice(r[2]);
    var address :- ParseTransport(r[3], mdio);
    var options :- ParseProtocol(r[4], mdio);
    var o :- ParseOptions(options, mdio);
    var defaults :- ParseDefaults(r[6]);
    var found :- Resources(r[5], defaults, mdio);
    if found.count == 0 {
      return Fail(Malformed);
    }
    if !NoGaps(found) {
      return Fail(Unsupported);
    }
    var ids := IdList(found.at, found.count);
    var polled: seq<u8> := [];
    if mdio {
      polled :- Order(options[3], ids);
    }
    var policy :- ParsePolicy(r[7]);
    var white :- Rules(policy.1, ids, mdio, o.maxValue);
    var deny :- Rules(policy.2, ids, mdio, o.maxValue);
    var seeds :- Settings(r[8], ids, mdio);
    :- ParseObservability(r[9]);
    var p := Profile(mdio, head.0, address, |ids|, o.maxValue, o.autopoll, polled, o.regDelay, o.cycleDelay, policy.0, white, deny, seeds,
                     Meta(2, device.1, device.0, device.2, device.3, head.1, head.2, ids));
    var status := Validate(p);
    if status != Ok {
      return Fail(status);
    }
    result := Good(p);
  }

  // ----- The version gate

  /** One member on the way: its key and its value. */
  method Pass(p: JsonScanner.Scanner) returns (ok: bool, key: Bytes, view: Bytes)
    requires p.Valid()
    modifies p
    ensures p.Valid()
    ensures match SchemaProbe.Met(old(p.Rest()))
            case None => !ok
            case Some((k, v, rest)) => ok && key == k && view == v && p.Rest() == rest
  {
    hide Skip, Value, StrIn, Ahead;
    view := [];
    ok, key := p.Str(Some(KEY_MAX));
    if !ok {
      return;
    }
    p.Ws();
    if p.at < |p.text| {
      p.Ahead(1);
      p.at := p.at + 1;
      p.Ws();
    }
    var start := p.at;
    ok := p.Value(1);
    if ok {
      AheadAt(p.text, start, p.at);
      view := p.text[start..p.at];
    }
  }

  /** To the next member, if a comma stands ahead of it. */
  method Turn(p: JsonScanner.Scanner)
    requires p.Valid()
    modifies p
    ensures p.Valid() && p.Rest() == SchemaProbe.Onward(old(p.Rest()))
  {
    hide Skip;
    p.Ws();
    if p.at < |p.text| && p.text[p.at] == COMMA {
      p.Ahead(1);
      p.at := p.at + 1;
      p.Ws();
    }
  }

  /** Which schema a text declares, member by member. */
  method Version(json: Bytes) returns (r: R<nat>)
    ensures r == SchemaProbe.Probe(json)
  {
    hide ProfileParser.Document, Skip, SchemaProbe.Met, SchemaProbe.Declared, SchemaProbe.ModernKey, SchemaProbe.ProbeFrom, SchemaProbe.Verdict,
      SchemaProbe.Onward;
    var root :- Document(json);
    SchemaProbe.DocumentStarts(json);
    var p := new JsonScanner.Scanner(root[1..]);
    p.Ws();
    var declared: Option<nat>, modern := None, false;
    ghost var whole := SchemaProbe.ProbeFrom(p.Rest(), declared, modern);
    while p.at < |p.text| && p.text[p.at] != RBRACE
      invariant p.Valid() && whole == SchemaProbe.ProbeFrom(p.Rest(), declared, modern)
      decreases |p.text| - p.at
    {
      SchemaProbe.ProbeOn(p.Rest(), declared, modern);
      var ok, key, view := Pass(p);
      if !ok {
        return Fail(Malformed);
      }
      declared :- SchemaProbe.Declared(key, view, declared);
      modern := modern || SchemaProbe.ModernKey(key);
      Turn(p);
    }
    SchemaProbe.ProbeStops(p.Rest(), declared, modern);
    r := SchemaProbe.Verdict(declared, modern);
  }
}
