/**
 The key lists of profile objects: printable, short and all different, so that every member has its own place.
 */
module ProfileKeys {
  import opened Words
  import opened JsonText
  import opened JsonDocs
  import opened JsonTables
  import opened ProfileParser

  predicate Lowercase(s: string) { forall i :: 0 <= i < |s| ==> 'a' <= s[i] <= 'z' || s[i] == '_' }

  /** A key's length and first two letters, enough to tell it from the others of its list. */
  function Mark(b: Bytes): nat {
    if |b| < 2 then 0 else |b| * 0x1_0000 + b[0] as int * 0x100 + b[1] as int
  }

  predicate KeyFits(b: Bytes) { Printed(b) && |b| < KEY_MAX }

  lemma KeyIs(s: string)
    requires 2 <= |s| < KEY_MAX && Lowercase(s)
    ensures KeyFits(Text(s)) && Mark(Text(s)) == |s| * 0x1_0000 + s[0] as int * 0x100 + s[1] as int
  {
    AsciiValid(Text(s));
  }

  predicate Marked(keys: seq<Bytes>, i: nat, mark: nat) { i < |keys| && KeyFits(keys[i]) && Mark(keys[i]) == mark }

  lemma Fit(keys: seq<Bytes>)
    requires forall i :: 0 <= i < |keys| ==> KeyFits(keys[i])
    requires forall i, j :: 0 <= i < j < |keys| ==> Mark(keys[i]) != Mark(keys[j])
    ensures KeysFit(keys)
  {
    hide Mark;
  }

  lemma FirstRootKeys()
    ensures Marked(RootKeys(), 0, 0xE7363)
    ensures Marked(RootKeys(), 1, 0x26964)
    ensures Marked(RootKeys(), 2, 0x66465)
    ensures Marked(RootKeys(), 3, 0x97472)
  {
    hide Text, Mark, KeyFits;
    KeyIs("schema_version");
    KeyIs("id");
    KeyIs("device");
    KeyIs("transport");
  }

  lemma SecondRootKeys()
    ensures Marked(RootKeys(), 4, 0x87072)
    ensures Marked(RootKeys(), 5, 0x97265)
    ensures Marked(RootKeys(), 6, 0x86465)
    ensures Marked(RootKeys(), 7, 0x6706F)
  {
    hide Text, Mark, KeyFits;
    KeyIs("protocol");
    KeyIs("resources");
    KeyIs("defaults");
    KeyIs("policy");
  }

  lemma ThirdRootKeys()
    ensures Marked(RootKeys(), 8, 0x87365)
    ensures Marked(RootKeys(), 9, 0xD6F62)
    ensures Marked(RootKeys(), 10, 0xC7265)
    ensures Marked(RootKeys(), 11, 0x47669)
  {
    hide Text, Mark, KeyFits;
    KeyIs("settings");
    KeyIs("observability");
    KeyIs("register_map");
    KeyIs("view");
  }

  lemma RootKeysFit()
    ensures KeysFit(RootKeys())
  {
    hide RootKeys, Mark, KeyFits, KeysFit;
    FirstRootKeys();
    SecondRootKeys();
    ThirdRootKeys();
    Fit(RootKeys());
  }

  lemma DeviceKeysFit()
    ensures KeysFit(DeviceKeys())
  {
    hide Text, Mark, KeyFits, KeysFit;
    KeyIs("model");
    KeyIs("vendor");
    KeyIs("class");
    KeyIs("label");
    Fit(DeviceKeys());
  }

  lemma TransportKeysFit()
    ensures KeysFit(TransportKeys())
  {
    hide Text, Mark, KeyFits, KeysFit;
    KeyIs("bus");
    KeyIs("controller");
    KeyIs("address");
    KeyIs("address_bits");
    Fit(TransportKeys());
  }

  lemma ProtocolKeysFit()
    ensures KeysFit(ProtocolKeys())
  {
    hide Text, Mark, KeyFits, KeysFit;
    KeyIs("driver");
    KeyIs("options");
    Fit(ProtocolKeys());
  }

  lemma FirstOptionKeys()
    ensures Marked(OptionKeys(), 0, 0xF6D61)
    ensures Marked(OptionKeys(), 1, 0x156361)
    ensures Marked(OptionKeys(), 2, 0x106175)
  {
    hide Text, Mark, KeyFits;
    KeyIs("max_write_value");
    KeyIs("capture_cache_on_save");
    KeyIs("autopoll_enabled");
  }

  lemma SecondOptionKeys()
    ensures Marked(OptionKeys(), 3, 0xE6175)
    ensures Marked(OptionKeys(), 4, 0x156175)
    ensures Marked(OptionKeys(), 5, 0x176175)
  {
    hide Text, Mark, KeyFits;
    KeyIs("autopoll_order");
    KeyIs("autopoll_reg_delay_ms");
    KeyIs("autopoll_cycle_delay_ms");
  }

  lemma OptionKeysFit()
    ensures KeysFit(OptionKeys())
  {
    hide OptionKeys, Mark, KeyFits, KeysFit;
    FirstOptionKeys();
    SecondOptionKeys();
    Fit(OptionKeys());
  }

  lemma FirstResourceKeys()
    ensures Marked(ResourceKeys(), 0, 0x26964)
    ensures Marked(ResourceKeys(), 1, 0x46B69)
    ensures Marked(ResourceKeys(), 2, 0x76164)
    ensures Marked(ResourceKeys(), 3, 0xA7769)
  {
    hide Text, Mark, KeyFits;
    KeyIs("id");
    KeyIs("kind");
    KeyIs("address");
    KeyIs("width_bits");
  }

  lemma SecondResourceKeys()
    ensures Marked(ResourceKeys(), 4, 0x66163)
    ensures Marked(ResourceKeys(), 5, 0xA7772)
    ensures Marked(ResourceKeys(), 6, 0x56361)
    ensures Marked(ResourceKeys(), 7, 0x67665)
  {
    hide Text, Mark, KeyFits;
    KeyIs("access");
    KeyIs("write_mask");
    KeyIs("cache");
    KeyIs("verify");
  }

  lemma ThirdResourceKeys()
    ensures Marked(ResourceKeys(), 8, 0x77265)
    ensures Marked(ResourceKeys(), 9, 0xC7065)
    ensures Marked(ResourceKeys(), 10, 0xB7265)
    ensures Marked(ResourceKeys(), 11, 0xC7772)
  {
    hide Text, Mark, KeyFits;
    KeyIs("refresh");
    KeyIs("persist_mask");
    KeyIs("read_effect");
    KeyIs("write_effect");
  }

  lemma FourthResourceKeys()
    ensures Marked(ResourceKeys(), 12, 0x66669)
  {
    hide Text, Mark, KeyFits;
    KeyIs("fields");
  }

  lemma ResourceKeysFit()
    ensures KeysFit(ResourceKeys())
  {
    hide ResourceKeys, Mark, KeyFits, KeysFit;
    FirstResourceKeys();
    SecondResourceKeys();
    ThirdResourceKeys();
    FourthResourceKeys();
    Fit(ResourceKeys());
  }

  lemma DefaultsKeysFit()
    ensures KeysFit(DefaultsKeys())
  {
    hide Text, Mark, KeyFits, KeysFit;
    KeyIs("register");
    Fit(DefaultsKeys());
  }

  lemma PolicyKeysFit()
    ensures KeysFit(PolicyKeys())
  {
    hide Text, Mark, KeyFits, KeysFit;
    KeyIs("read");
    KeyIs("write");
    Fit(PolicyKeys());
  }

  lemma PolicyEntryKeysFit()
    ensures KeysFit(PolicyEntryKeys())
  {
    hide Text, Mark, KeyFits, KeysFit;
    KeyIs("mode");
    KeyIs("rules");
    KeyIs("inactive_rules");
    Fit(PolicyEntryKeys());
  }

  lemma RuleKeysFit()
    ensures KeysFit(RuleKeys())
  {
    hide Text, Mark, KeyFits, KeysFit;
    KeyIs("resource");
    KeyIs("match");
    Fit(RuleKeys());
  }

  lemma MatchKeysFit()
    ensures KeysFit(MatchKeys())
  {
    hide Text, Mark, KeyFits, KeysFit;
    KeyIs("value");
    KeyIs("mask");
    Fit(MatchKeys());
  }

  lemma SettingsKeysFit()
    ensures KeysFit(SettingsKeys())
  {
    hide Text, Mark, KeyFits, KeysFit;
    KeyIs("cache_seed");
    KeyIs("desired");
    KeyIs("apply_on_startup");
    Fit(SettingsKeys());
  }

  lemma SeedKeysFit()
    ensures KeysFit(SeedKeys())
  {
    hide Text, Mark, KeyFits, KeysFit;
    KeyIs("resource");
    KeyIs("value");
    Fit(SeedKeys());
  }

  lemma ObserveKeysFit()
    ensures KeysFit(ObserveKeys())
  {
    hide Text, Mark, KeyFits, KeysFit;
    KeyIs("telemetry");
    KeyIs("events");
    Fit(ObserveKeys());
  }

  lemma ModeKeysFit()
    ensures KeysFit(ModeKeys())
  {
    hide Text, Mark, KeyFits, KeysFit;
    KeyIs("mode");
    Fit(ModeKeys());
  }
}
