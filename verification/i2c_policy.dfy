/**
 Bounded rule lists of an I2C device: in-place updates that refine a set of (register, value) pairs.
 */
module I2cPolicy {
  import opened Words
  import opened Statuses

  const RULES_MAX := 256

  datatype Rule = Rule(reg: u8, val: u8)

  datatype Mode = Whitelist | Blacklist

  function AsSet(rules: seq<Rule>): set<Rule> { set r | r in rules }

  predicate NoRepeats(rules: seq<Rule>) { forall i, j :: 0 <= i < j < |rules| ==> rules[i] != rules[j] }

  /** The list without one rule, everything else in its old order. */
  function Without(rules: seq<Rule>, x: Rule): (r: seq<Rule>)
    ensures |r| <= |rules|
  {
    if rules == [] then []
    else
      var n := |rules| - 1;
      Without(rules[..n], x) + if rules[n] == x then [] else [rules[n]]
  }

  lemma {:induction false} WithoutMembers(rules: seq<Rule>, x: Rule, y: Rule)
    ensures y in Without(rules, x) <==> y in rules && y != x
  {
    if rules != [] {
      var n := |rules| - 1;
      WithoutMembers(rules[..n], x, y);
      assert rules == rules[..n] + [rules[n]];
    }
  }

  lemma {:induction false} WithoutRepeats(rules: seq<Rule>, x: Rule)
    requires NoRepeats(rules)
    ensures NoRepeats(Without(rules, x))
  {
    if rules != [] {
      var n := |rules| - 1;
      WithoutRepeats(rules[..n], x);
      var front := Without(rules[..n], x);
      forall i | 0 <= i < |front| ensures front[i] != rules[n] {
        WithoutMembers(rules[..n], x, front[i]);
      }
    }
  }

  lemma WithoutIs(rules: seq<Rule>, x: Rule)
    ensures AsSet(Without(rules, x)) == AsSet(rules) - {x}
    ensures NoRepeats(rules) ==> NoRepeats(Without(rules, x))
  {
    hide Without, NoRepeats;
    forall y ensures y in Without(rules, x) <==> y in rules && y != x { WithoutMembers(rules, x, y); }
    if NoRepeats(rules) {
      WithoutRepeats(rules, x);
    }
  }

  lemma WithoutNone(x: Rule)
    ensures Without([], x) == []
  {
  }

  lemma WithoutNext(rules: seq<Rule>, x: Rule, i: nat)
    requires i < |rules|
    ensures Without(rules[..i + 1], x) == Without(rules[..i], x) + if rules[i] == x then [] else [rules[i]]
  {
    assert rules[..i + 1][..i] == rules[..i];
  }

  /** One rule list of one device, as the firmware keeps it: a fixed array and how much of it is in use. */
  class RuleList {
    const rules: array<Rule>
    var length: nat

    ghost predicate Valid()
      reads this, rules
    {
      rules.Length == RULES_MAX && length <= RULES_MAX && NoRepeats(rules[..length])
    }

    ghost function List(): seq<Rule>
      reads this, rules
      requires length <= rules.Length
    {
      rules[..length]
    }

    constructor ()
      ensures Valid() && List() == [] && fresh(rules)
    {
      rules := new Rule[RULES_MAX](_ => Rule(0, 0));
      length := 0;
    }

    method Contains(reg: u8, val: u8) returns (found: bool)
      requires Valid()
      ensures found == (Rule(reg, val) in AsSet(List()))
    {
      var i := 0;
      while i < length
        invariant 0 <= i <= length && Rule(reg, val) !in rules[..i]
      {
        if rules[i] == Rule(reg, val) {
          assert List()[i] == Rule(reg, val);
          return true;
        }
        i := i + 1;
      }
      found := false;
    }

    /** Adding what is there already succeeds and changes nothing; a full list refuses. */
    method Add(reg: u8, val: u8) returns (status: Status)
      requires Valid()
      modifies this`length, rules
      ensures Valid()
      ensures status == if Rule(reg, val) in AsSet(old(List())) || |old(List())| < RULES_MAX then Ok else Range
      ensures AsSet(List()) == if status == Ok then AsSet(old(List())) + {Rule(reg, val)} else AsSet(old(List()))
    {
      var found := Contains(reg, val);
      if found {
        return Ok;
      }
      if length >= RULES_MAX {
        return Range;
      }
      ghost var before := List();
      forall i | 0 <= i < |before| ensures before[i] != Rule(reg, val) { assert before[i] in AsSet(before); }
      rules[length] := Rule(reg, val);
      length := length + 1;
      assert List() == before + [Rule(reg, val)];
      status := Ok;
    }

    /** Moves the remaining rules down over the one removed. */
    method Remove(reg: u8, val: u8)
      requires Valid()
      modifies this`length, rules
      ensures Valid() && List() == Without(old(List()), Rule(reg, val))
      ensures AsSet(List()) == AsSet(old(List())) - {Rule(reg, val)}
    {
      hide Without, AsSet, NoRepeats;
      ghost var before := List();
      var x := Rule(reg, val);
      WithoutIs(before, x);
      WithoutNone(x);
      assert before[..0] == [];
      var i, kept := 0, 0;
      while i < length
        invariant 0 <= kept <= i <= length && length == old(length)
        invariant rules[..kept] == Without(before[..i], x)
        invariant rules[i..length] == before[i..]
      {
        WithoutNext(before, x, i);
        assert rules[i] == rules[i..length][0] == before[i];
        if rules[i] != x {
          ghost var front := rules[..kept];
          rules[kept] := rules[i];
          assert rules[..kept + 1] == front + [before[i]];
          kept := kept + 1;
        }
        assert rules[i + 1..length] == before[i + 1..];
        i := i + 1;
      }
      assert before[..i] == before;
      length := kept;
    }
  }

  /** The whole policy of a device refers to its lists only as sets. */
  predicate Permits(mode: Mode, white: set<Rule>, black: set<Rule>, regCount: nat, maxValue: u8, reg: u8, val: u8) {
    && reg < regCount && val <= maxValue
    && (if mode == Whitelist then Rule(reg, val) in white else Rule(reg, val) !in black)
  }

  class Policy {
    var mode: Mode
    const white: RuleList
    const black: RuleList

    ghost predicate Valid()
      reads this, white, black, white.rules, black.rules
    {
      white.Valid() && black.Valid() && white != black && white.rules != black.rules
    }

    constructor (mode: Mode)
      ensures Valid() && this.mode == mode && white.List() == [] && black.List() == []
      ensures fresh(white) && fresh(black) && fresh(white.rules) && fresh(black.rules)
    {
      this.mode := mode;
      white := new RuleList();
      black := new RuleList();
    }

    /** One rule is taken off both lists. */
    method Remove(reg: u8, val: u8)
      requires Valid()
      modifies white, white.rules, black, black.rules
      ensures Valid() && mode == old(mode)
      ensures AsSet(white.List()) == AsSet(old(white.List())) - {Rule(reg, val)}
      ensures AsSet(black.List()) == AsSet(old(black.List())) - {Rule(reg, val)}
    {
      white.Remove(reg, val);
      black.Remove(reg, val);
    }

    method PermitsWrite(regCount: nat, maxValue: u8, reg: u8, val: u8) returns (yes: bool)
      requires Valid()
      ensures yes == Permits(mode, AsSet(white.List()), AsSet(black.List()), regCount, maxValue, reg, val)
    {
      if reg >= regCount || val > maxValue {
        return false;
      }
      if mode == Whitelist {
        yes := white.Contains(reg, val);
      } else {
        var found := black.Contains(reg, val);
        yes := !found;
      }
    }
  }
}
