/**
 The host-facing I2C machine: a register pointer, reads that follow it, and writes of which every
 byte is accounted for.
 */
module I2cSlave {
  import opened Words
  import opened Statuses
  import opened I2cPolicy

  const REGISTERS := 256

  // ----- The audit trail

  datatype Outcome = Committed | Refused | Faulted(status: Status)

  /** What the audit records of one byte: first that it was attempted, then what became of it. */
  datatype Audit = Attempt(reg: nat, val: u8) | Commit(reg: nat, val: u8) | Deny(reg: nat, val: u8) | Fault(reg: nat, val: u8, status: Status)

  function Result(outcome: Outcome, reg: nat, val: u8): Audit {
    match outcome
    case Committed => Commit(reg, val)
    case Refused => Deny(reg, val)
    case Faulted(status) => Fault(reg, val, status)
  }

  /** Every byte once, in order, each with exactly one outcome. */
  function Trail(reg: nat, data: Bytes, outcomes: seq<Outcome>): (t: seq<Audit>)
    requires |outcomes| == |data|
    ensures |t| == 2 * |data|
  {
    if data == [] then []
    else
      var n := |data| - 1;
      Trail(reg, data[..n], outcomes[..n]) + [Attempt(reg + n, data[n]), Result(outcomes[n], reg + n, data[n])]
  }

  lemma TrailAppend(reg: nat, data: Bytes, outcomes: seq<Outcome>, v: u8, outcome: Outcome)
    requires |outcomes| == |data|
    ensures Trail(reg, data + [v], outcomes + [outcome]) ==
            Trail(reg, data, outcomes) + [Attempt(reg + |data|, v), Result(outcome, reg + |data|, v)]
  {
    assert (data + [v])[..|data|] == data && (outcomes + [outcome])[..|data|] == outcomes;
  }

  datatype Write = Write(reg: nat, val: u8)

  /** The bytes that reached the hardware: consecutive registers from `reg` on. */
  function Forwarded(reg: nat, data: Bytes): (w: seq<Write>)
    ensures |w| == |data|
  {
    if data == [] then [] else Forwarded(reg, data[..|data| - 1]) + [Write(reg + |data| - 1, data[|data| - 1])]
  }

  lemma TrailNone(reg: nat)
    ensures Trail(reg, [], []) == [] && Forwarded(reg, []) == []
  {
  }

  lemma ForwardedAppend(reg: nat, data: Bytes, v: u8)
    ensures Forwarded(reg, data + [v]) == Forwarded(reg, data) + [Write(reg + |data|, v)]
  {
    assert (data + [v])[..|data|] == data;
  }

  /** What the outcomes of a frame may look like when `n` of its bytes reached the hardware. */
  ghost predicate Plausible(outcomes: seq<Outcome>, n: nat) {
    && n <= |outcomes|
    && (forall i :: 0 <= i < n - 1 ==> outcomes[i] == Committed)
    && (n > 0 ==> !outcomes[n - 1].Refused?)
    && (forall i :: n <= i < |outcomes| ==> outcomes[i] != Committed)
  }

  // ----- The machine

  /** Everything that decides whether a write may pass. */
  datatype Gate = Gate(mode: Mode, white: set<Rule>, black: set<Rule>, regCount: nat, maxValue: u8)

  ghost predicate Passes(gate: Gate, reg: nat, val: u8) {
    reg < REGISTERS && Permits(gate.mode, gate.white, gate.black, gate.regCount, gate.maxValue, reg, val)
  }

  /** The first `n` bytes of a frame all pass. */
  ghost predicate AllPass(gate: Gate, reg: nat, data: Bytes, n: nat) {
    n <= |data| && forall i :: 0 <= i < n ==> Passes(gate, reg + i, data[i])
  }

  lemma PassNone(gate: Gate, reg: nat, data: Bytes)
    ensures AllPass(gate, reg, data, 0)
  {
  }

  lemma PassNext(gate: Gate, reg: nat, data: Bytes, n: nat)
    requires AllPass(gate, reg, data, n) && n < |data| && Passes(gate, reg + n, data[n])
    ensures AllPass(gate, reg, data, n + 1)
  {
  }

  /** What the hardware makes of one access. */
  datatype Answer = Answer(status: Status, value: u8)

  datatype Entry = Entry(value: u8, valid: bool)

  /** The data of a frame and the register it starts at, with the state it met. */
  datatype Frame = Frame(reg: nat, data: Bytes, gate: Gate, tick: nat, audit: seq<Audit>, sent: seq<Write>)

  /** Exactly what becomes of a frame's bytes: `n` of them are sent and end as the hardware says; the first failure, the end
      of the register file or a byte that may not pass stops the frame, and the rest is refused or faulted. */
  ghost predicate Settled(gate: Gate, reg: nat, data: Bytes, outcomes: seq<Outcome>, n: nat, world: nat -> Answer, tick: nat) {
    && n <= |data| == |outcomes|
    && (forall i :: 0 <= i < n ==> outcomes[i] == Ended(Hardware(world, tick, i)))
    && var fine := n == 0 || outcomes[n - 1] == Committed;
       && (fine && n < |data| && reg + n < gate.regCount ==> !Passes(gate, reg + n, data[n]))
       && forall i :: n <= i < |data| ==> outcomes[i] == Unsent(gate, reg + n, data[n], fine, i == n)
  }

  /** What the hardware makes of the `i`-th access from now on. */
  function Hardware(world: nat -> Answer, tick: nat, i: nat): Status { world(tick + i).status }

  function Ended(status: Status): Outcome { if status == Ok then Committed else Faulted(status) }

  /** A byte that was not sent, by where the frame stopped: at register `reg` with value `val`, unless an earlier byte had failed. */
  function Unsent(gate: Gate, reg: nat, val: u8, fine: bool, first: bool): Outcome {
    if fine && reg >= gate.regCount then Faulted(Range)
    else if fine && first then (if val <= gate.maxValue then Refused else Faulted(Range))
    else Faulted(NotReady)
  }

  /** Every byte so far was sent and taken. */
  ghost predicate Taken(outcomes: seq<Outcome>, world: nat -> Answer, tick: nat) {
    forall i :: 0 <= i < |outcomes| ==> outcomes[i] == Committed && Hardware(world, tick, i) == Ok
  }

  lemma NoneTaken(world: nat -> Answer, tick: nat)
    ensures Taken([], world, tick)
  {
  }

  lemma TakenNext(outcomes: seq<Outcome>, world: nat -> Answer, tick: nat)
    requires Taken(outcomes, world, tick) && world(tick + |outcomes|).status == Ok
    ensures Taken(outcomes + [Committed], world, tick)
  {
    assert Hardware(world, tick, |outcomes|) == Ok;
  }

  /** The ways a frame may stop, each with its account. */
  lemma SettledAll(gate: Gate, reg: nat, data: Bytes, outcomes: seq<Outcome>, world: nat -> Answer, tick: nat)
    requires Taken(outcomes, world, tick) && |outcomes| == |data|
    ensures Settled(gate, reg, data, outcomes, |data|, world, tick)
  {
  }

  lemma SettledAtEnd(gate: Gate, reg: nat, data: Bytes, outcomes: seq<Outcome>, n: nat, world: nat -> Answer, tick: nat)
    requires n < |data| == |outcomes| && Taken(outcomes[..n], world, tick) && reg + n >= gate.regCount
    requires forall i :: n <= i < |data| ==> outcomes[i] == Faulted(Range)
    ensures Settled(gate, reg, data, outcomes, n, world, tick)
  {
    assert forall i :: 0 <= i < n ==> outcomes[..n][i] == outcomes[i];
  }

  lemma SettledStopped(gate: Gate, reg: nat, data: Bytes, outcomes: seq<Outcome>, n: nat, world: nat -> Answer, tick: nat)
    requires n < |data| == |outcomes| && Taken(outcomes[..n], world, tick) && reg + n < gate.regCount && !Passes(gate, reg + n, data[n])
    requires outcomes[n] == if data[n] <= gate.maxValue then Refused else Faulted(Range)
    requires forall i :: n < i < |data| ==> outcomes[i] == Faulted(NotReady)
    ensures Settled(gate, reg, data, outcomes, n, world, tick)
  {
    assert forall i :: 0 <= i < n ==> outcomes[..n][i] == outcomes[i];
  }

  lemma SettledFailed(gate: Gate, reg: nat, data: Bytes, outcomes: seq<Outcome>, n: nat, world: nat -> Answer, tick: nat)
    requires n < |data| == |outcomes| && Taken(outcomes[..n], world, tick) && world(tick + n).status != Ok
    requires outcomes[n] == Faulted(world(tick + n).status) && forall i :: n < i < |data| ==> outcomes[i] == Faulted(NotReady)
    ensures Settled(gate, reg, data, outcomes, n + 1, world, tick)
  {
    assert forall i :: 0 <= i < n ==> outcomes[..n][i] == outcomes[i];
    assert Hardware(world, tick, n) == world(tick + n).status;
  }

  class Slave {
    const world: nat -> Answer
    const policy: Policy
    var tick: nat
    var regCount: nat
    var maxValue: u8
    var cache: seq<Entry>
    var pointer: u8
    var armed: bool
    ghost var audit: seq<Audit>
    ghost var sent: seq<Write>

    ghost predicate Valid()
      reads this, policy, policy.white, policy.black, policy.white.rules, policy.black.rules
    {
      policy.Valid() && 0 < regCount <= REGISTERS && |cache| == REGISTERS
    }

    ghost function Limits(): Gate
      reads this, policy, policy.white, policy.black, policy.white.rules, policy.black.rules
      requires Valid()
    {
      Gate(policy.mode, AsSet(policy.white.List()), AsSet(policy.black.List()), regCount, maxValue)
    }

    constructor (policy: Policy, regCount: nat, maxValue: u8, world: nat -> Answer)
      requires policy.Valid() && 0 < regCount <= REGISTERS
      ensures Valid() && this.policy == policy && !armed && audit == [] && sent == []
    {
      this.policy, this.regCount, this.maxValue, this.world := policy, regCount, maxValue, world;
      cache := Unknown(REGISTERS);
      tick, pointer, armed, audit, sent := 0, 0, false, [], [];
    }

    /** One register write through the policy to the hardware, audited. */
    method WriteRegister(reg: u8, val: u8) returns (status: Status, ghost outcome: Outcome)
      requires Valid()
      modifies this`tick, this`cache, this`audit, this`sent
      ensures Valid() && Limits() == old(Limits())
      ensures audit == old(audit) + [Attempt(reg, val), Result(outcome, reg, val)]
      ensures sent == old(sent) + if Passes(Limits(), reg, val) then [Write(reg, val)] else []
      ensures outcome == if Passes(Limits(), reg, val) then (if status == Ok then Committed else Faulted(status))
                         else if reg < regCount && val <= maxValue then Refused else Faulted(Range)
      ensures status == Ok <==> outcome == Committed
      ensures cache == old(cache)[reg := cache[reg]] && (outcome == Committed ==> cache[reg] == Entry(val, true))
      ensures outcome != Committed && Passes(Limits(), reg, val) ==> !cache[reg].valid
      ensures !Passes(Limits(), reg, val) ==> cache == old(cache)
      ensures Passes(Limits(), reg, val) ==> tick == old(tick) + 1 && status == world(old(tick)).status
    {
      audit := audit + [Attempt(reg, val)];
      if reg >= regCount || val > maxValue {
        outcome := Faulted(Range);
        audit := audit + [Fault(reg, val, Range)];
        return Range, outcome;
      }
      var permitted := policy.PermitsWrite(regCount, maxValue, reg, val);
      if !permitted {
        outcome := Refused;
        audit := audit + [Deny(reg, val)];
        return Denied, outcome;
      }
      var a := world(tick);
      tick, sent := tick + 1, sent + [Write(reg, val)];
      status := a.status;
      if status != Ok {
        outcome := Faulted(status);
        audit := audit + [Fault(reg, val, status)];
        cache := cache[reg := cache[reg].(valid := false)];
        return;
      }
      cache := cache[reg := Entry(val, true)];
      outcome := Committed;
      audit := audit + [Commit(reg, val)];
    }

    /** Bytes that are not going to be forwarded are audited all the same. */
    method FaultRest(reg: nat, data: Bytes, from: nat, why: Status, ghost before: seq<Audit>, ghost outcomes: seq<Outcome>)
      returns (ghost all: seq<Outcome>)
      requires from <= |data| && |outcomes| == from && audit == before + Trail(reg, data[..from], outcomes)
      modifies this`audit
      ensures |all| == |data| && audit == before + Trail(reg, data, all) && all[..from] == outcomes
      ensures forall i :: from <= i < |data| ==> all[i] == Faulted(why)
    {
      hide Trail;
      all := outcomes;
      var i := from;
      while i < |data|
        invariant from <= i <= |data| && |all| == i && all[..from] == outcomes
        invariant audit == before + Trail(reg, data[..i], all)
        invariant forall k :: from <= k < i ==> all[k] == Faulted(why)
      {
        TrailAppend(reg, data[..i], all, data[i], Faulted(why));
        assert data[..i + 1] == data[..i] + [data[i]];
        audit := audit + [Attempt(reg + i, data[i]), Fault(reg + i, data[i], why)];
        all := all + [Faulted(why)];
        i := i + 1;
      }
      assert data[..i] == data;
    }

    /** A write frame: the first byte sets the pointer, the others go to consecutive registers until one fails. */
    method HandleWrite(frame: Bytes) returns (status: Status, ghost outcomes: seq<Outcome>, ghost n: nat)
      requires Valid()
      modifies this`tick, this`cache, this`pointer, this`armed, this`audit, this`sent
      ensures Valid() && Limits() == old(Limits())
      ensures frame == [] ==> status == Malformed && !armed && audit == old(audit) && sent == old(sent)
      ensures frame != [] ==>
                && |outcomes| == |frame| - 1 && Plausible(outcomes, n)
                && audit == old(audit) + Trail(frame[0], frame[1..], outcomes)
                && sent == old(sent) + Forwarded(frame[0], frame[1..][..n])
                && AllPass(Limits(), frame[0], frame[1..], n)
                && armed == (|frame| == 1 && frame[0] < regCount)
                && pointer == (if frame[0] < regCount then frame[0] else old(pointer))
                && (frame[0] >= regCount ==> n == 0 && status == Range)
                && Settled(Limits(), frame[0], frame[1..], outcomes, n, world, old(tick))
                && (frame[0] < regCount ==>
                      (status == Ok <==> (forall i :: 0 <= i < n ==> outcomes[i] == Committed)
                                         && (n == |frame| - 1 || frame[0] + n >= regCount)))
      ensures frame != [] && frame[0] < regCount && status == Ok ==>
                (AllCommitted(outcomes) <==> frame[0] + (|frame| - 1) <= regCount)
    {
      outcomes, n := [], 0;
      armed := false;
      if |frame| == 0 {
        return Malformed, outcomes, n;
      }
      var reg, data := frame[0], frame[1..];
      hide Trail, Forwarded, Passes, AllPass;
      TrailNone(reg);
      PassNone(Limits(), reg, data);
      ghost var before := audit;
      assert data[..0] == [];
      assert before + [] == before && sent + [] == sent;
      if reg >= regCount {
        outcomes := FaultRest(reg, data, 0, Range, before, []);
        return Range, outcomes, n;
      }
      pointer := reg;
      armed := |frame| == 1;
      status, outcomes, n := ForwardData(reg, data);
      if status == Ok {
        LostBeyondTheEnd(Limits(), reg, data, outcomes, n);
      }
    }

    /** The frame stops behind byte `i - 1`, which was sent in vain or not at all. */
    method GiveUp(reg: nat, data: Bytes, i: nat, ghost before: seq<Audit>, ghost taken: seq<Outcome>, ghost outcome: Outcome, ghost gate: Gate,
                  ghost tick: nat) returns (ghost all: seq<Outcome>)
      requires 0 < i <= |data| && |taken| == i - 1 && Taken(taken, world, tick) && reg + i - 1 < gate.regCount
      requires audit == before + Trail(reg, data[..i], taken + [outcome])
      requires if Passes(gate, reg + i - 1, data[i - 1]) then
                 world(tick + i - 1).status != Ok && outcome == Faulted(world(tick + i - 1).status)
               else outcome == if data[i - 1] <= gate.maxValue then Refused else Faulted(Range)
      modifies this`audit
      ensures |all| == |data| && audit == before + Trail(reg, data, all) && all[..i] == taken + [outcome]
      ensures forall k :: i <= k < |data| ==> all[k] == Faulted(NotReady)
      ensures Settled(gate, reg, data, all, if Passes(gate, reg + i - 1, data[i - 1]) then i else i - 1, world, tick)
    {
      hide Trail, Passes, Settled, Taken;
      all := FaultRest(reg, data, i, NotReady, before, taken + [outcome]);
      assert all[..i][..i - 1] == taken && all[..i][i - 1] == outcome;
      assert all[..i - 1] == taken && all[i - 1] == outcome;
      if Passes(gate, reg + (i - 1), data[i - 1]) {
        SettledFailed(gate, reg, data, all, i - 1, world, tick);
      } else {
        SettledStopped(gate, reg, data, all, i - 1, world, tick);
      }
    }

    /** The first `i` bytes of a frame have been sent and taken. */
    ghost predicate Underway(f: Frame, i: nat, outcomes: seq<Outcome>)
      reads this, policy, policy.white, policy.black, policy.white.rules, policy.black.rules
    {
      && Valid() && i <= |f.data| && |outcomes| == i && tick == f.tick + i && Limits() == f.gate
      && audit == f.audit + Trail(f.reg, f.data[..i], outcomes) && sent == f.sent + Forwarded(f.reg, f.data[..i])
      && AllPass(f.gate, f.reg, f.data, i) && Taken(outcomes, world, f.tick) && forall k :: 0 <= k < i ==> outcomes[k] == Committed
    }

    /** What has become of a whole frame of which `n` bytes were sent. */
    ghost predicate Concluded(f: Frame, status: Status, outcomes: seq<Outcome>, n: nat)
      reads this, policy, policy.white, policy.black, policy.white.rules, policy.black.rules
    {
      && Valid() && |outcomes| == |f.data| && Plausible(outcomes, n) && Limits() == f.gate
      && audit == f.audit + Trail(f.reg, f.data, outcomes) && sent == f.sent + Forwarded(f.reg, f.data[..n])
      && AllPass(f.gate, f.reg, f.data, n) && Settled(f.gate, f.reg, f.data, outcomes, n, world, f.tick)
      && (status == Ok <==> (forall i :: 0 <= i < n ==> outcomes[i] == Committed) && (n == |f.data| || f.reg + n >= regCount))
    }

    lemma NothingSent(f: Frame)
      requires Valid() && f.tick == tick && f.gate == Limits() && f.audit == audit && f.sent == sent
      ensures Underway(f, 0, [])
    {
      hide Trail, Forwarded, AllPass, Taken;
      assert f.data[..0] == [];
      TrailNone(f.reg);
      PassNone(f.gate, f.reg, f.data);
      NoneTaken(world, tick);
    }

    lemma AllSent(f: Frame, outcomes: seq<Outcome>)
      requires Underway(f, |f.data|, outcomes)
      ensures Concluded(f, Ok, outcomes, |f.data|)
    {
      hide Trail, Forwarded, AllPass, Taken, Settled, Limits;
      assert f.data[..|f.data|] == f.data;
      SettledAll(f.gate, f.reg, f.data, outcomes, world, f.tick);
    }

    /** The frame runs past the last register. */
    method RunOut(ghost f: Frame, reg: u8, data: Bytes, i: nat, ghost taken: seq<Outcome>) returns (ghost outcomes: seq<Outcome>)
      requires f.reg == reg && f.data == data && Underway(f, i, taken) && i < |data| && reg + i >= regCount
      modifies this`audit
      ensures Concluded(f, Ok, outcomes, i)
    {
      hide Trail, Forwarded, Passes, AllPass, Settled, Taken;
      outcomes := FaultRest(reg, data, i, Range, f.audit, taken);
      SettledAtEnd(f.gate, reg, data, outcomes, i, world, f.tick);
    }

    /** One byte goes to its register; if it fails, the frame ends there. */
    method ForwardByte(ghost f: Frame, reg: u8, data: Bytes, i: nat, ghost taken: seq<Outcome>)
      returns (status: Status, ghost outcomes: seq<Outcome>, ghost n: nat)
      requires f.reg == reg && f.data == data && Underway(f, i, taken) && i < |data| && reg + i < regCount
      modifies this`tick, this`cache, this`audit, this`sent
      ensures if status == Ok then n == i + 1 && Underway(f, n, outcomes) else Concluded(f, status, outcomes, n)
    {
      hide Trail, Forwarded, Passes, AllPass, Settled, Taken;
      ghost var outcome;
      ghost var forwarded := Passes(f.gate, reg + i, data[i]);
      if forwarded {
        PassNext(f.gate, reg, data, i);
      }
      status, outcome := WriteRegister(reg + i, data[i]);
      TrailAppend(reg, data[..i], taken, data[i], outcome);
      ForwardedAppend(reg, data[..i], data[i]);
      assert data[..i + 1] == data[..i] + [data[i]];
      n := if forwarded then i + 1 else i;
      if status == Ok {
        outcomes := taken + [outcome];
        TakenNext(taken, world, f.tick);
      } else {
        outcomes := GiveUp(reg, data, i + 1, f.audit, taken, outcome, f.gate, f.tick);
        assert outcomes[i] == outcomes[..i + 1][i] == outcome;
        forall k | 0 <= k < i ensures outcomes[k] == Committed { assert outcomes[k] == outcomes[..i + 1][k] == taken[k]; }
      }
    }

    /** The bytes go to consecutive registers until one fails or the last register is passed. */
    method ForwardData(reg: u8, data: Bytes) returns (status: Status, ghost outcomes: seq<Outcome>, ghost n: nat)
      requires Valid() && reg < regCount
      modifies this`tick, this`cache, this`audit, this`sent
      ensures Valid() && |outcomes| == |data| && Plausible(outcomes, n)
      ensures audit == old(audit) + Trail(reg, data, outcomes) && sent == old(sent) + Forwarded(reg, data[..n])
      ensures AllPass(Limits(), reg, data, n) && Limits() == old(Limits())
      ensures Settled(Limits(), reg, data, outcomes, n, world, old(tick))
      ensures status == Ok <==> (forall i :: 0 <= i < n ==> outcomes[i] == Committed) && (n == |data| || reg + n >= regCount)
    {
      hide Trail, Forwarded, Passes, AllPass, Settled, Taken, Plausible, Underway, Limits;
      ghost var f := Frame(reg, data, Limits(), tick, audit, sent);
      outcomes, n := [], 0;
      status := Ok;
      NothingSent(f);
      var i := 0;
      while i < |data|
        invariant 0 <= i <= |data| && i == n && Underway(f, i, outcomes) && status == Ok
      {
        if reg + i >= regCount {
          outcomes := RunOut(f, reg, data, i, outcomes);
          return;
        }
        status, outcomes, n := ForwardByte(f, reg, data, i, outcomes);
        if status != Ok {
          return;
        }
        i := i + 1;
      }
      AllSent(f, outcomes);
    }

    /** Where a read starts: at the pointer, or at 0 when that is outside the register file. */
    function Start(): nat
      reads this
    {
      if pointer < regCount then pointer else 0
    }

    /** The registers known from `reg` on, at most `room` of them; an unknown first one is fetched alone. */
    method LoadWindow(reg: u8, capacity: nat) returns (status: Status, window: Bytes)
      requires Valid() && reg < regCount
      modifies this`tick, this`cache
      ensures Valid() && Limits() == old(Limits()) && |window| <= capacity && reg + |window| <= regCount
      ensures status == Ok && capacity > 0 ==> window != []
      ensures status == Ok ==> Served(cache, reg, window)
      ensures status != Ok ==> window == []
      ensures cache == old(cache)[reg := cache[reg]] && (old(cache)[reg].valid ==> cache == old(cache) && status == Ok)
      ensures capacity == 0 ==> status == Ok && cache == old(cache) && tick == old(tick)
    {
      status, window := Ok, [];
      var i := 0;
      while i < capacity && reg + i < regCount
        invariant 0 <= i <= capacity && reg + i <= regCount && |window| == i && Served(cache, reg, window)
      {
        var e := cache[reg + i];
        if e.valid {
          window := window + [e.value];
          i := i + 1;
          continue;
        }
        if i != 0 {
          return;
        }
        var a := world(tick);
        tick := tick + 1;
        status := a.status;
        if status != Ok {
          cache := cache[reg := cache[reg].(valid := false)];
          return;
        }
        cache := cache[reg := Entry(a.value, true)];
        window := [a.value];
        return;
      }
    }

    /** A read phase: nothing unless a pointer-only frame came before it, then consecutive registers from the pointer. */
    method HandleRead(capacity: nat) returns (status: Status, window: Bytes)
      requires Valid()
      modifies this`tick, this`cache, this`pointer
      ensures Valid() && Limits() == old(Limits()) && armed == old(armed)
      ensures !armed ==> status == Ok && window == [] && pointer == old(pointer) && cache == old(cache)
      ensures armed && status == Ok ==>
                && |window| <= capacity && old(Start()) + |window| <= regCount && (capacity > 0 ==> window != [])
                && Served(cache, old(Start()), window)
                && pointer == (if window == [] then 0 else Wrapped(old(Start()) + |window|, regCount))
      ensures status != Ok ==> window == [] && pointer == old(pointer)
      ensures armed && capacity == 0 ==> status == Ok && window == [] && pointer == 0 && cache == old(cache)
      ensures audit == old(audit) && sent == old(sent)
    {
      hide Served, Wrapped;
      status, window := Ok, [];
      if !armed {
        return;
      }
      var reg := if pointer < regCount then pointer else 0;
      status, window := LoadWindow(reg, capacity);
      if status != Ok {
        return;
      }
      WrappedIs(reg + |window|, regCount);
      pointer := if |window| != 0 && reg + |window| < regCount then reg + |window| else 0;
    }

    /** Ends the transaction; a later read has to set the pointer again. */
    method EndTransaction()
      requires Valid()
      modifies this`armed
      ensures Valid() && !armed
    {
      armed := false;
    }
  }

  /** Positions in a register file of `count` registers, going round. */
  function Wrapped(position: nat, count: nat): (r: nat)
    requires count > 0
    ensures r < count
  {
    position % count
  }

  lemma WrappedIs(position: nat, count: nat)
    requires 0 < count && position <= count
    ensures Wrapped(position, count) == if position < count then position else 0
  {
  }

  /** A window shows what is cached for consecutive registers. */
  ghost predicate Served(cache: seq<Entry>, reg: nat, window: Bytes) {
    reg + |window| <= |cache| && forall i :: 0 <= i < |window| ==> cache[reg + i] == Entry(window[i], true)
  }

  function Unknown(n: nat): (r: seq<Entry>)
    ensures |r| == n && forall i :: 0 <= i < n ==> !r[i].valid
  {
    if n == 0 then [] else Unknown(n - 1) + [Entry(0, false)]
  }

  predicate AllCommitted(outcomes: seq<Outcome>) { forall i :: 0 <= i < |outcomes| ==> outcomes[i] == Committed }

  /** A frame that succeeds has had all its bytes taken exactly when the last of them has a register. */
  lemma LostBeyondTheEnd(gate: Gate, reg: nat, data: Bytes, outcomes: seq<Outcome>, n: nat)
    requires reg < gate.regCount && |outcomes| == |data| && Plausible(outcomes, n) && AllPass(gate, reg, data, n)
    requires (forall i :: 0 <= i < n ==> outcomes[i] == Committed) && (n == |data| || reg + n >= gate.regCount)
    ensures AllCommitted(outcomes) <==> reg + |data| <= gate.regCount
  {
    assert n < |data| ==> outcomes[n] != Committed;
    if n == |data| > 0 {
      assert Passes(gate, reg + (n - 1), data[n - 1]);
    }
  }

  // ----- Two frames that go differently than one might expect

  /** One byte for the last register and one too many: the frame succeeds and the last byte is audited as a fault. */
  method Overrun(s: Slave, val: u8, extra: u8) returns (status: Status)
    requires s.Valid() && s.regCount < REGISTERS && Passes(s.Limits(), s.regCount - 1, val) && s.world(s.tick).status == Ok
    modifies s`tick, s`cache, s`pointer, s`armed, s`audit, s`sent
    ensures status == Ok && s.sent == old(s.sent) + [Write(s.regCount - 1, val)]
    ensures s.audit == old(s.audit) + [Attempt(s.regCount - 1, val), Commit(s.regCount - 1, val), Attempt(s.regCount, extra), Fault(s.regCount, extra, Range)]
  {
    hide Passes;
    var last: u8 := s.regCount - 1;
    var frame: Bytes := [last, val, extra];
    ghost var data, gate, tick := [val, extra], s.Limits(), s.tick;
    assert frame[1..] == data;
    ghost var outcomes, n;
    status, outcomes, n := s.HandleWrite(frame);
    OverrunCounts(gate, last, val, extra, outcomes, n, s.world, tick);
    assert data[..1] == [val];
    OneForwarded(last, val);
    TwoTrailed(last, val, extra);
  }

  lemma OverrunCounts(gate: Gate, last: nat, val: u8, extra: u8, outcomes: seq<Outcome>, n: nat, world: nat -> Answer, tick: nat)
    requires Settled(gate, last, [val, extra], outcomes, n, world, tick) && Plausible(outcomes, n) && AllPass(gate, last, [val, extra], n)
    requires gate.regCount == last + 1 && Passes(gate, last, val) && world(tick).status == Ok
    ensures n == 1 && outcomes == [Committed, Faulted(Range)]
  {
    hide Passes, AllPass;
    var data := [val, extra];
    assert Hardware(world, tick, 0) == Ok;
    if n > 1 {
      PassesAt(gate, last, data, n, 1);
      BeyondStops(gate, last + 1, extra);
      assert false;
    }
  }

  lemma PassesAt(gate: Gate, reg: nat, data: Bytes, n: nat, i: nat)
    requires AllPass(gate, reg, data, n) && i < n
    ensures Passes(gate, reg + i, data[i])
  {
  }

  lemma BeyondStops(gate: Gate, reg: nat, val: u8)
    requires reg >= gate.regCount
    ensures !Passes(gate, reg, val)
  {
  }

  lemma OneForwarded(reg: nat, val: u8)
    ensures Forwarded(reg, [val]) == [Write(reg, val)]
  {
    assert [val][..0] == [];
  }

  lemma TwoTrailed(reg: nat, val: u8, extra: u8)
    ensures Trail(reg, [val, extra], [Committed, Faulted(Range)]) ==
            [Attempt(reg, val), Commit(reg, val), Attempt(reg + 1, extra), Fault(reg + 1, extra, Range)]
  {
    var none: Bytes, one: Bytes, front := [], [val], [Committed];
    TrailNone(reg);
    TrailAppend(reg, none, [], val, Committed);
    assert none + [val] == one && [] + [Committed] == front;
    TrailAppend(reg, one, front, extra, Faulted(Range));
    assert one + [extra] == [val, extra] && front + [Faulted(Range)] == [Committed, Faulted(Range)];
  }

  /** An armed read with no room for a byte loses its place. */
  method NoRoom(s: Slave) returns (status: Status, window: Bytes)
    requires s.Valid() && s.armed && s.pointer != 0
    modifies s`tick, s`cache, s`pointer
    ensures status == Ok && window == [] && s.pointer == 0
  {
    status, window := s.HandleRead(0);
  }
}
