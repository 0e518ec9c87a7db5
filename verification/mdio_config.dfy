/**
 The configuration of one PHY: what is valid, and which register writes its policy lets through.
 */
module MdioConfig {
  import opened Words
  import opened Statuses

  const NAME_MAX := 32
  const RULES_MAX := 64
  const SETTINGS_MAX := 32
  const REGISTERS := 32
  const PHYS := 32
  const REG_DELAY_MAX := 60000
  const CYCLE_DELAY_MAX := 600000

  datatype Policy = Whitelist | Blacklist

  datatype Rule = Rule(reg: u8, val: u16, mask: u16)

  datatype Setting = Setting(reg: u8, val: u16)

  datatype Config = Config(name: Bytes, phyAddr: u8, regCount: u8, policy: Policy, autopoll: bool, autopollRegs: seq<u8>,
                           regDelay: u32, cycleDelay: u32, whitelist: seq<Rule>, blacklist: seq<Rule>,
                           settings: seq<Setting>)

  predicate SafeChar(c: u8) {
    || 'a' as int <= c <= 'z' as int || 'A' as int <= c <= 'Z' as int || '0' as int <= c <= '9' as int
    || c == '_' as int || c == '-' as int || c == '.' as int
  }

  predicate SafeName(name: Bytes) {
    && 0 < |name| < NAME_MAX && (forall i :: 0 <= i < |name| ==> SafeChar(name[i]))
    && (forall i :: 0 <= i < |name| - 1 ==> !(name[i] == '.' as int && name[i + 1] == '.' as int))
  }

  predicate RulesInRange(rules: seq<Rule>, count: nat) { forall i :: 0 <= i < |rules| ==> rules[i].reg < count }

  predicate Distinct(regs: seq<u8>) { forall i, j :: 0 <= i < j < |regs| ==> regs[i] != regs[j] }

  function SettingRegs(settings: seq<Setting>): (r: seq<u8>)
    ensures |r| == |settings| && forall i :: 0 <= i < |r| ==> r[i] == settings[i].reg
  {
    if settings == [] then [] else [settings[0].reg] + SettingRegs(settings[1..])
  }

  predicate Valid(c: Config) {
    && SafeName(c.name) && c.phyAddr < PHYS && 0 < c.regCount <= REGISTERS
    && |c.whitelist| <= RULES_MAX && |c.blacklist| <= RULES_MAX && |c.settings| <= SETTINGS_MAX && |c.autopollRegs| <= REGISTERS
    && c.regDelay <= REG_DELAY_MAX && c.cycleDelay <= CYCLE_DELAY_MAX
    && RulesInRange(c.whitelist, c.regCount) && RulesInRange(c.blacklist, c.regCount)
    && (forall i :: 0 <= i < |c.autopollRegs| ==> c.autopollRegs[i] < c.regCount) && Distinct(c.autopollRegs)
    && (forall i :: 0 <= i < |c.settings| ==> c.settings[i].reg < c.regCount) && Distinct(SettingRegs(c.settings))
  }

  /** The first thing wrong with a list of registers, in the order it is read. */
  function RegistersVerdict(regs: seq<u8>, count: nat): Status {
    if regs == [] then Ok
    else
      var n := |regs| - 1;
      var front := RegistersVerdict(regs[..n], count);
      if front != Ok then front
      else if regs[n] >= count then Range
      else if regs[n] in regs[..n] then Malformed
      else Ok
  }

  lemma {:induction false} VerdictIs(regs: seq<u8>, count: nat)
    ensures RegistersVerdict(regs, count) == Ok <==> Distinct(regs) && forall i :: 0 <= i < |regs| ==> regs[i] < count
  {
    if regs != [] {
      var n := |regs| - 1;
      VerdictIs(regs[..n], count);
      assert regs == regs[..n] + [regs[n]];
    }
  }

  /** What validating a configuration comes to, fault by fault. */
  function Validate(c: Config): Status {
    if !SafeName(c.name) || c.phyAddr >= PHYS || c.regCount == 0 || c.regCount > REGISTERS
       || |c.whitelist| > RULES_MAX || |c.blacklist| > RULES_MAX || |c.settings| > SETTINGS_MAX || |c.autopollRegs| > REGISTERS
       || c.regDelay > REG_DELAY_MAX || c.cycleDelay > CYCLE_DELAY_MAX then Malformed
    else if !RulesInRange(c.whitelist, c.regCount) || !RulesInRange(c.blacklist, c.regCount) then Range
    else if RegistersVerdict(c.autopollRegs, c.regCount) != Ok then RegistersVerdict(c.autopollRegs, c.regCount)
    else RegistersVerdict(SettingRegs(c.settings), c.regCount)
  }

  lemma ValidateIs(c: Config)
    ensures Validate(c) == Ok <==> Valid(c)
  {
    VerdictIs(c.autopollRegs, c.regCount);
    VerdictIs(SettingRegs(c.settings), c.regCount);
    hide SafeName, Distinct, RegistersVerdict;
    assert forall i :: 0 <= i < |c.settings| ==> SettingRegs(c.settings)[i] == c.settings[i].reg;
  }

  method CheckRegisters(regs: seq<u8>, count: nat) returns (status: Status)
    ensures status == RegistersVerdict(regs, count)
  {
    var i := 0;
    while i < |regs|
      invariant 0 <= i <= |regs| && RegistersVerdict(regs[..i], count) == Ok
    {
      assert regs[..i + 1][..i] == regs[..i];
      if regs[i] >= count {
        VerdictStays(regs, i + 1, count);
        return Range;
      }
      var j := 0;
      while j < i
        invariant 0 <= j <= i && regs[i] !in regs[..j]
      {
        if regs[j] == regs[i] {
          assert regs[..i][j] == regs[i];
          VerdictStays(regs, i + 1, count);
          return Malformed;
        }
        assert regs[..j + 1] == regs[..j] + [regs[j]];
        j := j + 1;
      }
      i := i + 1;
    }
    assert regs[..i] == regs;
    status := Ok;
  }

  lemma {:induction false} VerdictStays(regs: seq<u8>, n: nat, count: nat)
    requires n <= |regs| && RegistersVerdict(regs[..n], count) != Ok
    ensures RegistersVerdict(regs, count) == RegistersVerdict(regs[..n], count)
    decreases |regs|
  {
    if n < |regs| {
      var m := |regs| - 1;
      assert regs[..m][..n] == regs[..n];
      VerdictStays(regs[..m], n, count);
    } else {
      assert regs[..n] == regs;
    }
  }

  // ----- The write policy

  /** The bits of `value` under `mask`. */
  function Masked(value: nat, mask: nat): (r: nat)
    ensures r <= value
  {
    if value == 0 || mask == 0 then 0
    else 2 * Masked(value / 2, mask / 2) + (value % 2) * (mask % 2)
  }

  predicate Covers(rule: Rule, reg: u8, value: u16) {
    rule.reg == reg && Masked(value, rule.mask) == Masked(rule.val, rule.mask)
  }

  ghost predicate AnyCovers(rules: seq<Rule>, reg: u8, value: u16) {
    exists i :: 0 <= i < |rules| && Covers(rules[i], reg, value)
  }

  /** A whitelist lets through what a rule covers, a blacklist what none does; nothing outside the register file. */
  ghost predicate Allowed(c: Config, reg: u8, value: u16) {
    && reg < c.regCount && |c.whitelist| <= RULES_MAX && |c.blacklist| <= RULES_MAX
    && (if c.policy == Whitelist then AnyCovers(c.whitelist, reg, value) else !AnyCovers(c.blacklist, reg, value))
  }

  method PolicyAllows(c: Config, reg: u8, value: u16) returns (allows: bool)
    ensures allows == Allowed(c, reg, value)
  {
    if reg >= c.regCount || |c.whitelist| > RULES_MAX || |c.blacklist| > RULES_MAX {
      return false;
    }
    var rules := if c.policy == Whitelist then c.whitelist else c.blacklist;
    var matched, i := false, 0;
    while i < |rules|
      invariant 0 <= i <= |rules| && matched == AnyCovers(rules[..i], reg, value)
    {
      CoversNext(rules, i, reg, value);
      if Covers(rules[i], reg, value) {
        matched := true;
      }
      i := i + 1;
    }
    assert rules[..i] == rules;
    allows := if c.policy == Whitelist then matched else !matched;
  }

  lemma CoversNext(rules: seq<Rule>, i: nat, reg: u8, value: u16)
    requires i < |rules|
    ensures AnyCovers(rules[..i + 1], reg, value) <==> AnyCovers(rules[..i], reg, value) || Covers(rules[i], reg, value)
  {
    hide Covers;
    var shorter, longer := rules[..i], rules[..i + 1];
    assert longer[i] == rules[i] && forall k :: 0 <= k < i ==> longer[k] == shorter[k];
    if AnyCovers(shorter, reg, value) {
      var k :| 0 <= k < i && Covers(shorter[k], reg, value);
      assert Covers(longer[k], reg, value);
    }
  }

  // ----- Rule lists

  /** Two rules are the same when they cover the same values of the same register under the same mask. */
  predicate SameRule(rule: Rule, reg: u8, value: u16, mask: u16) {
    rule.reg == reg && rule.mask == mask && Masked(rule.val, mask) == Masked(value, mask)
  }

  function Listed(rules: seq<Rule>, reg: u8, value: u16, mask: u16): bool
  {
    exists i :: 0 <= i < |rules| && SameRule(rules[i], reg, value, mask)
  }

  /** Adding a rule: nothing changes when it is already there or the list is full. */
  function RuleAdded(rules: seq<Rule>, reg: u8, value: u16, mask: u16): (Status, seq<Rule>) {
    if Listed(rules, reg, value, mask) then (Ok, rules)
    else if |rules| >= RULES_MAX then (Range, rules)
    else (Ok, rules + [Rule(reg, Masked(value, mask), mask)])
  }

  function Others(rules: seq<Rule>, reg: u8, value: u16, mask: u16): (r: seq<Rule>)
    ensures |r| <= |rules|
  {
    if rules == [] then []
    else (if SameRule(rules[0], reg, value, mask) then [] else [rules[0]]) + Others(rules[1..], reg, value, mask)
  }

  function RuleRemoved(rules: seq<Rule>, reg: u8, value: u16, mask: u16): (Status, seq<Rule>) {
    if Listed(rules, reg, value, mask) then (Ok, Others(rules, reg, value, mask)) else (NotFound, rules)
  }

  lemma {:induction false} MaskTwice(value: nat, mask: nat)
    ensures Masked(Masked(value, mask), mask) == Masked(value, mask)
  {
    if value != 0 && mask != 0 {
      var high, low := Masked(value / 2, mask / 2), (value % 2) * (mask % 2);
      MaskTwice(value / 2, mask / 2);
      assert low == 0 || low == 1;
      assert Masked(value, mask) / 2 == high && Masked(value, mask) % 2 == low;
      assert low * (mask % 2) == low;
      if Masked(value, mask) == 0 {
        assert high == 0 && low == 0;
      }
    }
  }

  /** What a rule covers does not depend on bits its mask ignores, so clearing them changes nothing. */
  lemma SameCoverage(rule: Rule, reg: u8, value: u16, mask: u16, r: u8, v: u16)
    requires SameRule(rule, reg, value, mask)
    ensures Covers(rule, r, v) <==> Covers(Rule(reg, Masked(value, mask), mask), r, v)
  {
    MaskTwice(value, mask);
  }

  /** After a successful addition the list covers exactly what it covered before or the new rule covers. */
  lemma AddedCovers(rules: seq<Rule>, reg: u8, value: u16, mask: u16, r: u8, v: u16)
    requires RuleAdded(rules, reg, value, mask).0 == Ok
    ensures AnyCovers(RuleAdded(rules, reg, value, mask).1, r, v) <==>
            AnyCovers(rules, r, v) || Covers(Rule(reg, value, mask), r, v)
  {
    var added := Rule(reg, Masked(value, mask), mask);
    SameCoverage(Rule(reg, value, mask), reg, value, mask, r, v);
    if Listed(rules, reg, value, mask) {
      var i :| 0 <= i < |rules| && SameRule(rules[i], reg, value, mask);
      SameCoverage(rules[i], reg, value, mask, r, v);
    } else {
      hide Covers;
      var after := rules + [added];
      assert after[|rules|] == added && forall k :: 0 <= k < |rules| ==> after[k] == rules[k];
      if AnyCovers(rules, r, v) {
        var k :| 0 <= k < |rules| && Covers(rules[k], r, v);
        assert Covers(after[k], r, v);
      }
    }
  }

  lemma {:induction false} OthersContents(rules: seq<Rule>, reg: u8, value: u16, mask: u16, x: Rule)
    ensures x in Others(rules, reg, value, mask) <==> x in rules && !SameRule(x, reg, value, mask)
  {
    if rules != [] {
      OthersContents(rules[1..], reg, value, mask, x);
      assert rules == [rules[0]] + rules[1..];
    }
  }

  /** Removing takes the rule and leaves every other one; removing what was just added restores the list. */
  lemma {:induction false} RemoveUndoesAdd(rules: seq<Rule>, reg: u8, value: u16, mask: u16)
    requires !Listed(rules, reg, value, mask) && |rules| < RULES_MAX
    ensures RuleRemoved(RuleAdded(rules, reg, value, mask).1, reg, value, mask) == (Ok, rules)
  {
    var added := Rule(reg, Masked(value, mask), mask);
    MaskTwice(value, mask);
    var after := rules + [added];
    assert SameRule(after[|rules|], reg, value, mask);
    OthersAppend(rules, added, reg, value, mask);
  }

  lemma {:induction false} OthersAppend(rules: seq<Rule>, x: Rule, reg: u8, value: u16, mask: u16)
    requires !Listed(rules, reg, value, mask) && SameRule(x, reg, value, mask)
    ensures Others(rules + [x], reg, value, mask) == rules
  {
    hide SameRule;
    if rules == [] {
      assert rules + [x] == [x];
      assert Others([x][1..], reg, value, mask) == [];
    } else {
      assert (rules + [x])[1..] == rules[1..] + [x];
      forall i | 0 <= i < |rules| - 1 ensures !SameRule(rules[1..][i], reg, value, mask) { assert rules[1..][i] == rules[i + 1]; }
      OthersAppend(rules[1..], x, reg, value, mask);
      assert !SameRule(rules[0], reg, value, mask);
    }
  }
}
