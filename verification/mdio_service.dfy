/**
 The MDIO service: three copies of every PHY register that must agree whenever nobody is at work
 on them, and hardware writes that never get past the policy.
 */
module MdioService {
  import opened Words
  import opened Statuses
  import opened MdioConfig

  const NO_VALUE: u16 := 0xFFFF
  const FROM_SETTINGS := 1
  const FROM_DEVICE := 2
  const PRESENCE_READY := 1
  const PRESENCE_GONE := 2
  const PROBE_MS := 1000

  const MAILBOXES := 1024
  const TAKEN_PER_STEP := 4

  datatype Entry = Entry(value: u16, valid: bool, seeded: bool, updatedMs: u64)

  const EMPTY := Entry(0, false, false, 0)

  /** A register as the cache registry shows it: nothing at all while it is invalid. */
  datatype Shown = Shown(value: u16, valid: bool, source: nat, updatedMs: u64)

  function Show(e: Entry): Shown {
    if e.valid then Shown(e.value, true, if e.seeded then FROM_SETTINGS else FROM_DEVICE, e.updatedMs)
    else Shown(0, false, 0, 0)
  }

  /** A register as the host reads it from the published bank. */
  function Face(e: Entry): u16 { if e.valid then e.value else NO_VALUE }

  type Row = r: seq<Entry> | |r| == REGISTERS witness EmptyRow(REGISTERS)

  type BankRow = r: seq<u16> | |r| == REGISTERS witness BlankRow(REGISTERS)

  function EmptyRow(n: nat): (r: seq<Entry>)
    ensures |r| == n && forall i :: 0 <= i < n ==> r[i] == EMPTY
  {
    if n == 0 then [] else EmptyRow(n - 1) + [EMPTY]
  }

  function BlankRow(n: nat): (r: seq<u16>)
    ensures |r| == n && forall i :: 0 <= i < n ==> r[i] == NO_VALUE
  {
    if n == 0 then [] else BlankRow(n - 1) + [NO_VALUE]
  }

  predicate Mirrors(bank: BankRow, row: Row) { forall r :: 0 <= r < REGISTERS ==> bank[r] == Face(row[r]) }

  predicate Shows(shown: seq<Shown>, row: Row, count: nat) {
    |shown| == count <= REGISTERS && forall r :: 0 <= r < count ==> shown[r] == Show(row[r])
  }

  /** Nothing is ever cached outside a device's register file. */
  predicate Within(row: Row, count: nat) { forall r :: count <= r < REGISTERS ==> !row[r].valid }

  predicate Blank(bank: BankRow) { forall r :: 0 <= r < REGISTERS ==> bank[r] == NO_VALUE }

  ghost predicate Configured(devices: seq<Config>) {
    && (forall d :: 0 <= d < |devices| ==>
          MdioConfig.Valid(devices[d]) && 0 < devices[d].regCount <= REGISTERS && devices[d].phyAddr < PHYS)
    && (forall i, j :: 0 <= i < j < |devices| ==> devices[i].phyAddr != devices[j].phyAddr)
  }

  ghost predicate Nobody(devices: seq<Config>, phy: nat) { forall d :: 0 <= d < |devices| ==> devices[d].phyAddr != phy }

  /** The three copies of every device but `d` agree; the bank only as far as it has taken what it was given. */
  ghost predicate AgreeBut(devices: seq<Config>, cache: seq<Row>, bank: seq<BankRow>, registry: seq<seq<Shown>>, faulty: bool,
                           d: nat) {
    && Configured(devices) && |cache| == |registry| == |devices| && |bank| == PHYS
    && (forall i :: 0 <= i < |devices| ==> Within(cache[i], devices[i].regCount) && |registry[i]| == devices[i].regCount)
    && (forall i :: 0 <= i < |devices| && i != d ==> Shows(registry[i], cache[i], devices[i].regCount))
    && (!faulty ==>
          && (forall i :: 0 <= i < |devices| && i != d ==> Mirrors(bank[devices[i].phyAddr], cache[i]))
          && (forall p :: 0 <= p < PHYS && Nobody(devices, p) ==> Blank(bank[p])))
  }

  /** While device `d` is being worked on, its own row in each copy may change freely. */
  lemma AgreeWork(devices: seq<Config>, cache: seq<Row>, bank: seq<BankRow>, registry: seq<seq<Shown>>, faulty: bool, d: nat,
                  row: Row, face: BankRow, shown: seq<Shown>, broken: bool)
    requires AgreeBut(devices, cache, bank, registry, faulty, d) && d < |devices|
    requires Within(row, devices[d].regCount) && |shown| == devices[d].regCount && (faulty ==> broken)
    ensures AgreeBut(devices, cache[d := row], bank[devices[d].phyAddr := face], registry[d := shown], broken, d)
  {
    hide MdioConfig.Valid, Within, Shows, Mirrors, Blank;
  }

  lemma AgreeClosed(devices: seq<Config>, cache: seq<Row>, bank: seq<BankRow>, registry: seq<seq<Shown>>, faulty: bool, d: nat)
    requires AgreeBut(devices, cache, bank, registry, faulty, d) && d < |devices|
    requires Shows(registry[d], cache[d], devices[d].regCount)
    requires !faulty ==> Mirrors(bank[devices[d].phyAddr], cache[d])
    ensures AgreeBut(devices, cache, bank, registry, faulty, |devices|)
  {
    hide MdioConfig.Valid, Within, Shows, Mirrors, Blank;
  }

  lemma AgreeOpened(devices: seq<Config>, cache: seq<Row>, bank: seq<BankRow>, registry: seq<seq<Shown>>, faulty: bool, d: nat)
    requires AgreeBut(devices, cache, bank, registry, faulty, |devices|) && d < |devices|
    ensures AgreeBut(devices, cache, bank, registry, faulty, d)
    ensures Shows(registry[d], cache[d], devices[d].regCount) && (!faulty ==> Mirrors(bank[devices[d].phyAddr], cache[d]))
  {
    hide MdioConfig.Valid, Within, Shows, Mirrors, Blank;
  }

  lemma AgreeSizes(devices: seq<Config>, cache: seq<Row>, bank: seq<BankRow>, registry: seq<seq<Shown>>, faulty: bool, d: nat,
                   i: nat)
    requires AgreeBut(devices, cache, bank, registry, faulty, d) && i < |devices|
    ensures |cache| == |registry| == |devices| && |bank| == PHYS && devices[i].phyAddr < PHYS
    ensures 0 < devices[i].regCount <= REGISTERS && |registry[i]| == devices[i].regCount && Within(cache[i], devices[i].regCount)
    ensures MdioConfig.Valid(devices[i])
  {
    hide MdioConfig.Valid;
  }

  /** What the bus makes of one call. */
  datatype Answer = Answer(status: Status, value: u16)

  datatype Write = Write(phy: u8, reg: u8, value: u16)

  class Service {
    const world: nat -> Answer
    const clock: nat -> u64
    var tick: nat
    var devices: seq<Config>
    var cache: seq<Row>
    var bank: seq<BankRow>
    var registry: seq<seq<Shown>>
    var presence: seq<nat>
    var online: seq<bool>
    var pollDue: seq<nat>
    var probeDue: seq<nat>
    var pollIndex: seq<nat>
    var pollDevice: nat
    /** Whether the bank ever refused to take a value. */
    ghost var faulty: bool
    /** Writes the host has left in the mailboxes, by PHY and register. */
    var mailbox: seq<Option<u16>>
    var scanIndex: nat
    /** Every write the hardware was asked to do. */
    ghost var sent: seq<Write>

    ghost predicate Shaped()
      reads this
    {
      && |mailbox| == MAILBOXES && scanIndex < MAILBOXES
      && |presence| == |online| == |pollDue| == |probeDue| == |pollIndex| == |devices|
      && (forall d :: 0 <= d < |devices| ==> pollIndex[d] == 0 || pollIndex[d] < |devices[d].autopollRegs|)
    }

    /** All copies agree except, perhaps, those of device `d`. */
    ghost predicate ValidBut(d: nat)
      reads this
    {
      Shaped() && AgreeBut(devices, cache, bank, registry, faulty, d)
    }

    /** The published bank, the service cache and the registry agree on every register of every device. */
    ghost predicate Valid()
      reads this
    {
      ValidBut(|devices|)
    }

    constructor (devices: seq<Config>, world: nat -> Answer, clock: nat -> u64)
      requires Configured(devices)
      ensures Valid() && !faulty && this.devices == devices && sent == []
    {
      hide AgreeBut, MdioConfig.Valid;
      AgreeStart(devices);
      this.devices, this.world, this.clock := devices, world, clock;
      tick, pollDevice, faulty, sent := 0, 0, false, [];
      cache := Repeat(EmptyRow(REGISTERS), |devices|);
      bank := Repeat(BlankRow(REGISTERS), PHYS);
      registry := Hidden(devices);
      presence, online := Repeat(0, |devices|), Repeat(false, |devices|);
      mailbox, scanIndex := Repeat(None, MAILBOXES), 0;
      pollDue, probeDue, pollIndex := Repeat(0, |devices|), Repeat(0, |devices|), Repeat(0, |devices|);
    }

    method Publish(phy: u8, reg: u8, value: u16) returns (status: Status)
      requires |bank| == PHYS && phy < PHYS && reg < REGISTERS
      modifies this`tick, this`bank, this`faulty
      ensures status == Ok ==> bank == old(bank)[phy := old(bank)[phy][reg := value]] && faulty == old(faulty)
      ensures status != Ok ==> bank == old(bank) && faulty
    {
      var a := world(tick);
      tick := tick + 1;
      status := a.status;
      if status == Ok {
        bank := bank[phy := bank[phy][reg := value]];
      } else {
        faulty := true;
      }
    }

    /** Tells the registry about one register. */
    method CacheChanged(d: nat, r: u8)
      requires d < |devices| == |cache| == |registry| && r < REGISTERS && |registry[d]| == devices[d].regCount
      modifies this`registry
      ensures registry == old(registry)[d := Told(old(registry)[d], cache[d], r)]
    {
      if r < devices[d].regCount {
        registry := registry[d := registry[d][r := Show(cache[d][r])]];
      }
    }

    /** Forgets everything about a device, in all three copies. */
    method Invalidate(d: nat) returns (ok: bool)
      requires ValidBut(d) && d < |devices|
      modifies this`tick, this`cache, this`bank, this`registry, this`presence, this`online, this`probeDue, this`faulty
      ensures Valid() && |old(cache)| == |old(online)| == |old(presence)| == |old(probeDue)| == |devices|
      ensures cache == old(cache)[d := EmptyRow(REGISTERS)] && online == old(online)[d := false]
      ensures presence == old(presence)[d := PRESENCE_GONE] && probeDue == old(probeDue)[d := 0]
      ensures (ok ==> faulty == old(faulty)) && (!ok ==> faulty)
    {
      hide AgreeBut, Shows;
      Forget(d);
      HideAll(d);
      SetPresence(d, PRESENCE_GONE);
      ok := PublishBlank(d);
    }

    method Forget(d: nat)
      requires ValidBut(d) && d < |devices|
      modifies this`cache, this`online, this`probeDue
      ensures ValidBut(d) && cache == old(cache)[d := EmptyRow(REGISTERS)] && |cache| == |old(cache)| == |devices|
      ensures |old(online)| == |old(probeDue)| == |devices|
      ensures online == old(online)[d := false] && probeDue == old(probeDue)[d := 0]
    {
      hide AgreeBut;
      AgreeSizes(devices, cache, bank, registry, faulty, d, d);
      AgreeWork(devices, cache, bank, registry, faulty, d, EmptyRow(REGISTERS), bank[devices[d].phyAddr], registry[d], faulty);
      SameRow(bank, devices[d].phyAddr);
      SameRow(registry, d);
      cache := cache[d := EmptyRow(REGISTERS)];
      online, probeDue := online[d := false], probeDue[d := 0];
    }

    method SetPresence(d: nat, value: nat)
      requires Shaped() && d < |devices|
      modifies this`presence
      ensures Shaped() && presence == old(presence)[d := value]
    {
      presence := presence[d := value];
    }

    /** Shows the registry a device of which nothing is known. */
    method HideAll(d: nat)
      requires ValidBut(d) && d < |devices| && |cache| == |devices| && cache[d] == EmptyRow(REGISTERS)
      modifies this`registry
      ensures ValidBut(d) && |registry| == |cache| && Shows(registry[d], cache[d], devices[d].regCount)
    {
      hide AgreeBut;
      AgreeSizes(devices, cache, bank, registry, faulty, d, d);
      var r := 0;
      while r < devices[d].regCount
        invariant 0 <= r <= devices[d].regCount && ValidBut(d) && |registry| == |devices| && |registry[d]| == devices[d].regCount
        invariant forall k :: 0 <= k < r ==> registry[d][k] == Show(EMPTY)
      {
        AgreeSizes(devices, cache, bank, registry, faulty, d, d);
        AgreeWork(devices, cache, bank, registry, faulty, d, cache[d], bank[devices[d].phyAddr],
                  Told(registry[d], cache[d], r), faulty);
        SameRow(bank, devices[d].phyAddr);
        SameRow(cache, d);
        CacheChanged(d, r);
        r := r + 1;
      }
    }

    /** Takes a PHY's registers out of the published bank. */
    method PublishBlank(d: nat) returns (ok: bool)
      requires ValidBut(d) && d < |devices| == |cache| == |registry| && cache[d] == EmptyRow(REGISTERS)
      requires Shows(registry[d], cache[d], devices[d].regCount)
      modifies this`tick, this`bank, this`faulty
      ensures Valid() && (ok ==> faulty == old(faulty)) && (!ok ==> faulty)
    {
      hide AgreeBut;
      AgreeSizes(devices, cache, bank, registry, faulty, d, d);
      var phy := devices[d].phyAddr;
      ok := true;
      var r := 0;
      while r < REGISTERS
        invariant 0 <= r <= REGISTERS && ValidBut(d) && |bank| == PHYS
        invariant ok ==> faulty == old(faulty)
        invariant !ok ==> faulty
        invariant !faulty ==> forall k :: 0 <= k < r ==> bank[phy][k] == NO_VALUE
      {
        var done := PublishIn(d, r, NO_VALUE);
        if done != Ok {
          ok := false;
        }
        r := r + 1;
      }
      AgreeClosed(devices, cache, bank, registry, faulty, d);
    }

    /** Publishes one register of the device being worked on. */
    method PublishIn(d: nat, r: u8, value: u16) returns (status: Status)
      requires ValidBut(d) && d < |devices| && r < REGISTERS && |bank| == PHYS && devices[d].phyAddr < PHYS
      modifies this`tick, this`bank, this`faulty
      ensures ValidBut(d) && |bank| == PHYS
      ensures status == Ok ==> bank[devices[d].phyAddr] == old(bank)[devices[d].phyAddr][r := value] && faulty == old(faulty)
      ensures status != Ok ==> bank == old(bank) && faulty
    {
      hide AgreeBut;
      AgreeSizes(devices, cache, bank, registry, faulty, d, d);
      var phy := devices[d].phyAddr;
      AgreeWork(devices, cache, bank, registry, faulty, d, cache[d], bank[phy][r := value], registry[d], faulty);
      AgreeWork(devices, cache, bank, registry, faulty, d, cache[d], bank[phy], registry[d], true);
      SameRow(bank, phy);
      SameRow(cache, d);
      SameRow(registry, d);
      status := Publish(phy, r, value);
    }

    /** What the host sees of the device being worked on, as far as the bank took what it was given. */
    ghost predicate Faced(d: nat)
      reads this
    {
      d < |devices| == |cache| && devices[d].phyAddr < |bank| && (!faulty ==> Mirrors(bank[devices[d].phyAddr], cache[d]))
    }

    /** Records an entry that has just been published, or one that could not be. */
    method SetEntry(d: nat, r: u8, e: Entry)
      requires ValidBut(d) && d < |devices| && |cache| == |devices| && |bank| == PHYS && devices[d].phyAddr < PHYS
      requires r < devices[d].regCount <= REGISTERS
      requires !faulty ==> bank[devices[d].phyAddr][r] == Face(e)
      requires !faulty ==> forall k :: 0 <= k < REGISTERS && k != r ==> bank[devices[d].phyAddr][k] == Face(cache[d][k])
      modifies this`cache
      ensures ValidBut(d) && cache == old(cache)[d := old(cache)[d][r := e]] && Faced(d)
    {
      hide AgreeBut;
      AgreeSizes(devices, cache, bank, registry, faulty, d, d);
      AgreeWork(devices, cache, bank, registry, faulty, d, cache[d][r := e], bank[devices[d].phyAddr], registry[d], faulty);
      SameRow(bank, devices[d].phyAddr);
      SameRow(registry, d);
      cache := cache[d := cache[d][r := e]];
    }

    /** Tells the registry about one register of the device being worked on. */
    method Tell(d: nat, r: u8)
      requires ValidBut(d) && d < |devices| && r < REGISTERS
      modifies this`registry
      ensures ValidBut(d) && |registry| == |devices| == |cache| && |old(registry)| == |devices|
      ensures registry == old(registry)[d := Told(old(registry)[d], cache[d], r)]
    {
      hide AgreeBut;
      AgreeSizes(devices, cache, bank, registry, faulty, d, d);
      AgreeWork(devices, cache, bank, registry, faulty, d, cache[d], bank[devices[d].phyAddr], Told(registry[d], cache[d], r), faulty);
      SameRow(bank, devices[d].phyAddr);
      SameRow(cache, d);
      CacheChanged(d, r);
    }

    /** Reads a register from the hardware into the cache and the bank, and, unless it is a probe, the registry. */
    method ReadPhy(d: nat, r: u8, probe: bool) returns (status: Status, value: u16)
      requires ValidBut(d) && Faced(d) && |registry| == |devices| && r < devices[d].regCount
      modifies this`tick, this`cache, this`bank, this`registry, this`faulty
      ensures ValidBut(d) && Faced(d) && |registry| == |devices| && |old(cache)| == |devices| == |old(registry)|
      ensures cache == old(cache)[d := old(cache)[d][r := cache[d][r]]]
      ensures if status == Ok then cache[d][r] == Entry(value, true, false, cache[d][r].updatedMs) else !cache[d][r].valid
      ensures registry == if probe then old(registry) else old(registry)[d := Told(old(registry)[d], cache[d], r)]
      ensures status == Ok ==> world(old(tick)) == Answer(Ok, value)
      ensures status != Ok ==> cache[d][r] == old(cache)[d][r].(valid := false) && (faulty || status == world(old(tick)).status)
    {
      hide AgreeBut, MdioConfig.Valid;
      AgreeSizes(devices, cache, bank, registry, faulty, d, d);
      var a := world(tick);
      tick := tick + 1;
      status, value := a.status, a.value;
      var entry := cache[d][r].(valid := false);
      if status == Ok {
        status := PublishIn(d, r, value);
        if status == Ok {
          entry := Entry(value, true, false, clock(tick));
        }
      }
      if status != Ok {
        var ignored := PublishIn(d, r, NO_VALUE);
      }
      SetEntry(d, r, entry);
      if !probe {
        Tell(d, r);
      }
    }

    /** Between operations the device's copies agree; opening it for work says so. */
    lemma Opened(d: nat)
      requires Valid() && d < |devices|
      ensures ValidBut(d) && Faced(d) && |registry| == |devices| && Shows(registry[d], cache[d], devices[d].regCount)
    {
      hide AgreeBut;
      AgreeOpened(devices, cache, bank, registry, faulty, d);
      AgreeSizes(devices, cache, bank, registry, faulty, d, d);
    }

    lemma Closed(d: nat)
      requires ValidBut(d) && Faced(d) && |registry| == |devices| && Shows(registry[d], cache[d], devices[d].regCount)
      ensures Valid()
    {
      hide AgreeBut;
      AgreeSizes(devices, cache, bank, registry, faulty, d, d);
      AgreeClosed(devices, cache, bank, registry, faulty, d);
    }

    lemma Sizes(d: nat)
      requires Valid() && d < |devices|
      ensures 0 < devices[d].regCount <= REGISTERS && devices[d].phyAddr < PHYS && |cache| == |registry| == |devices| && |bank| == PHYS
      ensures MdioConfig.Valid(devices[d])
    {
      hide AgreeBut;
      AgreeSizes(devices, cache, bank, registry, faulty, |devices|, d);
    }

    /** An ordinary read, from start to end. */
    method Refresh(d: nat, r: u8) returns (status: Status, value: u16)
      requires Valid() && d < |devices| && r < devices[d].regCount
      modifies this`tick, this`cache, this`bank, this`registry, this`faulty
      ensures Valid() && |cache| == |old(cache)| == |devices|
      ensures cache == old(cache)[d := old(cache)[d][r := cache[d][r]]]
      ensures if status == Ok then cache[d][r] == Entry(value, true, false, cache[d][r].updatedMs) else !cache[d][r].valid
      ensures status == Ok ==> world(old(tick)) == Answer(Ok, value)
      ensures status != Ok ==> faulty || status == world(old(tick)).status
    {
      hide AgreeBut, MdioConfig.Valid;
      Sizes(d);
      Opened(d);
      ghost var shown, row := registry[d], cache[d];
      status, value := ReadPhy(d, r, false);
      ShowsSet(shown, row, devices[d].regCount, r, cache[d][r]);
      Closed(d);
    }

    /** Drops one register from all three copies. */
    method DropEntry(d: nat, r: u8)
      requires Valid() && d < |devices| && r < devices[d].regCount
      modifies this`tick, this`cache, this`bank, this`registry, this`faulty
      ensures Valid() && |cache| == |old(cache)| == |devices|
      ensures cache == old(cache)[d := old(cache)[d][r := old(cache)[d][r].(valid := false)]]
    {
      hide AgreeBut, MdioConfig.Valid;
      Sizes(d);
      Opened(d);
      ghost var shown, row := registry[d], cache[d];
      var entry := cache[d][r].(valid := false);
      var ignored := PublishIn(d, r, NO_VALUE);
      SetEntry(d, r, entry);
      Tell(d, r);
      ShowsSet(shown, row, devices[d].regCount, r, entry);
      Closed(d);
    }

    /** A write: judged first, sent once, and then read back from the hardware. */
    method WritePhy(d: nat, r: u8, value: u16) returns (status: Status)
      requires Valid() && d < |devices| && r < REGISTERS
      modifies this`tick, this`cache, this`bank, this`registry, this`presence, this`online, this`probeDue, this`pollDue
      modifies this`pollIndex, this`faulty, this`sent
      ensures Valid()
      ensures sent == old(sent) + if Allowed(devices[d], r, value) then [Write(devices[d].phyAddr, r, value)] else []
      ensures !Allowed(devices[d], r, value) ==> status == Denied && cache == old(cache) && bank == old(bank) && registry == old(registry)
      ensures |cache| == |old(cache)| == |devices|
      ensures Allowed(devices[d], r, value) ==>
                && cache == old(cache)[d := Forgotten(old(cache)[d], r, value)[r := cache[d][r]]]
                && (cache[d][r].valid ==> status == Ok && !cache[d][r].seeded)
      ensures status == Ok ==> d < |pollDue| == |pollIndex| && pollDue[d] == 0 && pollIndex[d] == 0
    {
      hide AgreeBut, MdioConfig.Valid, Allowed, Shaped;
      Sizes(d);
      var allowed := PolicyAllows(devices[d], r, value);
      if !allowed {
        return Denied;
      }
      AllowedInRange(devices[d], r, value);
      Distrust(d, r, value);
      SameRow(cache[d], r);
      status := Send(d, r, value);
      if status == Ok {
        Confirm(d, r);
      }
    }

    /** A command is not a reply: what it may change is forgotten before it is sent, everything in case of a reset. */
    method Distrust(d: nat, r: u8, value: u16)
      requires Valid() && d < |devices| && r < devices[d].regCount
      modifies this`tick, this`cache, this`bank, this`registry, this`presence, this`online, this`probeDue, this`faulty
      ensures Valid() && |cache| == |old(cache)| == |devices|
      ensures cache == old(cache)[d := Forgotten(old(cache)[d], r, value)] && !cache[d][r].valid
      ensures !Resets(r, value) ==> online == old(online) && presence == old(presence) && probeDue == old(probeDue)
    {
      hide AgreeBut, MdioConfig.Valid, Shaped;
      Sizes(d);
      if Resets(r, value) {
        Opened(d);
        var ignored := Invalidate(d);
      } else {
        DropEntry(d, r);
      }
    }

    method Send(d: nat, r: u8, value: u16) returns (status: Status)
      requires Valid() && d < |devices|
      modifies this`tick, this`sent
      ensures Valid() && sent == old(sent) + [Write(devices[d].phyAddr, r, value)]
    {
      hide AgreeBut;
      var a := world(tick);
      tick := tick + 1;
      sent := sent + [Write(devices[d].phyAddr, r, value)];
      status := a.status;
    }

    /** Reads back what was written and has the device polled from the start. */
    method Confirm(d: nat, r: u8)
      requires Valid() && d < |devices| && r < devices[d].regCount
      modifies this`tick, this`cache, this`bank, this`registry, this`faulty, this`pollDue, this`pollIndex
      ensures Valid() && |cache| == |old(cache)| == |devices| == |old(pollDue)| == |old(pollIndex)|
      ensures cache == old(cache)[d := old(cache)[d][r := cache[d][r]]] && (cache[d][r].valid ==> !cache[d][r].seeded)
      ensures pollDue == old(pollDue)[d := 0] && pollIndex == old(pollIndex)[d := 0]
    {
      hide AgreeBut, MdioConfig.Valid;
      var status, actual := Refresh(d, r);
      pollDue, pollIndex := pollDue[d := 0], pollIndex[d := 0];
    }

    /** Puts one configured value in front. */
    method SeedOne(d: nat, setting: Setting) returns (ok: bool)
      requires Valid() && d < |devices| && setting.reg < devices[d].regCount
      modifies this`tick, this`cache, this`bank, this`registry, this`faulty
      ensures Valid() && (ok ==> faulty == old(faulty)) && (!ok ==> faulty) && |cache| == |old(cache)| == |devices|
      ensures ok ==>
                setting.reg < REGISTERS && cache == old(cache)[d := old(cache)[d][setting.reg := cache[d][setting.reg]]]
                && SetTo(cache[d], setting)
    {
      hide AgreeBut, MdioConfig.Valid;
      Sizes(d);
      Opened(d);
      ghost var shown, row := registry[d], cache[d];
      var status := PublishIn(d, setting.reg, setting.val);
      ok := status == Ok;
      if ok {
        var entry := Entry(setting.val, true, true, clock(tick));
        SetEntry(d, setting.reg, entry);
        Tell(d, setting.reg);
        ShowsSet(shown, row, devices[d].regCount, setting.reg, entry);
      }
      Closed(d);
    }

    /** Puts the configured values in front, until the hardware has been asked. */
    method Seed(d: nat) returns (status: Status)
      requires Valid() && d < |devices|
      modifies this`tick, this`cache, this`bank, this`registry, this`faulty
      ensures Valid() && (status == Ok || (status == Io && faulty)) && |cache| == |old(cache)| == |devices|
      ensures status == Ok ==>
                faulty == old(faulty) && cache == old(cache)[d := cache[d]]
                && SeededFrom(old(cache)[d], cache[d], devices[d].settings, |devices[d].settings|)
    {
      hide AgreeBut, MdioConfig.Valid, SeededFrom, Shaped;
      Sizes(d);
      SameRow(cache, d);
      SeededNone(cache[d], devices[d].settings);
      var i := 0;
      while i < |devices[d].settings|
        invariant 0 <= i <= |devices[d].settings| && Valid() && faulty == old(faulty) && |cache| == |old(cache)| == |devices|
        invariant cache == old(cache)[d := cache[d]] && SeededFrom(old(cache)[d], cache[d], devices[d].settings, i)
      {
        ghost var row := cache[d];
        SettingFits(devices[d], i);
        var ok := SeedOne(d, devices[d].settings[i]);
        if !ok {
          return Io;
        }
        SeededNext(old(cache)[d], row, devices[d], i, cache[d][devices[d].settings[i].reg]);
        i := i + 1;
      }
      status := Ok;
    }

    // ----- Reconfiguration

    /** Whether a configuration is taken at all, and the reason if not. */
    ghost function Verdict(d: nat, c: Config): Status
      reads this
    {
      if Validate(c) != Ok then Validate(c)
      else if Taken(devices, d, c.phyAddr) then Denied
      else if d >= |devices| then NotFound
      else if c.name != devices[d].name then Denied
      else Ok
    }

    /** Replaces a device's configuration. Its name stays; a new address, size or setting starts it afresh. */
    method SetConfig(d: nat, c: Config) returns (status: Status)
      requires Valid()
      modifies this`tick, this`devices, this`cache, this`bank, this`registry, this`presence, this`online, this`probeDue
      modifies this`pollDue, this`pollIndex, this`faulty
      ensures Valid()
      ensures old(Verdict(d, c)) != Ok ==> status == old(Verdict(d, c)) && unchanged(this)
      ensures old(Verdict(d, c)) == Ok ==>
                && (status == Ok || (status == Io && faulty))
                && (status == Ok ==>
                      && devices == old(devices)[d := c] && |cache| == |old(cache)| == |devices|
                      && cache == old(cache)[d := cache[d]]
                      && if Afresh(old(devices)[d], c) then SeededFrom(EmptyRow(REGISTERS), cache[d], c.settings, |c.settings|)
                         else cache == old(cache))
    {
      hide AgreeBut, MdioConfig.Valid, Validate, SeededFrom;
      status := Validate(c);
      if status != Ok {
        return;
      }
      ValidateIs(c);
      var taken := FindTaken(d, c.phyAddr);
      if d >= |devices| {
        return if taken then Denied else NotFound;
      }
      if c.name != devices[d].name || taken {
        return Denied;
      }
      status := Replace(d, c);
    }

    /** Puts an accepted configuration in place; its device starts afresh if the bus would see the change. */
    method Replace(d: nat, c: Config) returns (status: Status)
      requires Valid() && d < |devices| && MdioConfig.Valid(c) && !Taken(devices, d, c.phyAddr)
      modifies this`tick, this`devices, this`cache, this`bank, this`registry, this`presence, this`online, this`probeDue
      modifies this`pollDue, this`pollIndex, this`faulty
      ensures Valid() && (status == Ok || (status == Io && faulty))
      ensures status == Ok ==>
                && devices == old(devices)[d := c] && |cache| == |old(cache)| == |devices|
                && cache == old(cache)[d := cache[d]]
                && if Afresh(old(devices)[d], c) then SeededFrom(EmptyRow(REGISTERS), cache[d], c.settings, |c.settings|)
                   else cache == old(cache)
    {
      hide AgreeBut, MdioConfig.Valid, SeededFrom;
      status := Ok;
      var changed := Afresh(devices[d], c);
      Sizes(d);
      SameRow(cache, d);
      if changed {
        Opened(d);
        var ok := Invalidate(d);
        if !ok {
          return Io;
        }
      }
      Sizes(d);
      Redefine(d, c);
      if changed {
        Opened(d);
        var ok := Invalidate(d);
        if !ok {
          return Io;
        }
        status := Seed(d);
      }
    }

    method FindTaken(d: nat, phy: u8) returns (taken: bool)
      ensures taken == Taken(devices, d, phy)
    {
      taken := false;
      var i := 0;
      while i < |devices|
        invariant 0 <= i <= |devices|
        invariant taken == exists k :: 0 <= k < i && k != d && devices[k].phyAddr == phy
      {
        if i != d && phy == devices[i].phyAddr {
          taken := true;
        }
        i := i + 1;
      }
    }

    /** Takes over a configuration and describes the device anew to the registry. */
    method Redefine(d: nat, c: Config)
      requires Valid() && d < |devices| == |cache| && MdioConfig.Valid(c) && !Taken(devices, d, c.phyAddr)
      requires cache[d] == EmptyRow(REGISTERS) || (c.phyAddr == devices[d].phyAddr && c.regCount == devices[d].regCount)
      modifies this`devices, this`registry, this`presence, this`pollDue, this`pollIndex
      ensures Valid() && devices == old(devices)[d := c]
    {
      hide AgreeBut, MdioConfig.Valid;
      Sizes(d);
      CountFits(c);
      AgreeRedefined(devices, cache, bank, registry, faulty, d, c);
      devices := devices[d := c];
      registry := registry[d := Described(cache[d], c.regCount)];
      presence := presence[d := if online[d] then PRESENCE_READY else 0];
      pollDue, pollIndex := pollDue[d := 0], pollIndex[d := 0];
    }

    // ----- The cooperative worker

    /** The host leaves a write; one not yet taken is overwritten. */
    method Post(index: nat, value: u16)
      requires Valid() && index < MAILBOXES
      modifies this`mailbox
      ensures Valid() && mailbox == old(mailbox)[index := Some(value)]
    {
      hide AgreeBut;
      mailbox := mailbox[index := Some(value)];
    }

    /** No two devices share an address. */
    lemma OwnAddress()
      requires Valid()
      ensures forall i, j :: 0 <= i < j < |devices| ==> devices[i].phyAddr != devices[j].phyAddr
    {
    }

    method FindPhy(phy: u8) returns (d: nat)
      ensures d <= |devices| && (d < |devices| ==> devices[d].phyAddr == phy)
      ensures forall k :: 0 <= k < d ==> devices[k].phyAddr != phy
    {
      d := 0;
      while d < |devices|
        invariant d <= |devices| && forall k :: 0 <= k < d ==> devices[k].phyAddr != phy
      {
        if devices[d].phyAddr == phy {
          return;
        }
        d := d + 1;
      }
    }

    /** Takes one write out of its mailbox, if there is one; the bus may fail to. */
    method TakeWrite(index: nat) returns (status: Status, value: u16)
      requires Valid() && index < MAILBOXES
      modifies this`tick, this`mailbox
      ensures Valid()
      ensures mailbox == if status == Ok then old(mailbox)[index := None] else old(mailbox)
      ensures status == Ok ==> old(mailbox)[index] == Some(value)
      ensures status == NotFound ==> old(mailbox)[index] == None
    {
      hide AgreeBut;
      var a := world(tick);
      tick := tick + 1;
      status, value := a.status, 0;
      if status == NotFound {
        status := Io;
      }
      if status == Ok {
        match mailbox[index] {
          case None => status := NotFound;
          case Some(v) =>
            value := v;
            mailbox := mailbox[index := None];
        }
      }
    }

    /** The mailbox the scan has reached: a write in it is taken out and judged. */
    method NextMailbox() returns (status: Status, verdict: Status)
      requires Valid()
      modifies this`tick, this`cache, this`bank, this`registry, this`presence, this`online, this`probeDue, this`pollDue
      modifies this`pollIndex, this`faulty, this`sent, this`mailbox, this`scanIndex
      ensures Valid() && scanIndex == (old(scanIndex) + 1) % MAILBOXES
      ensures status == Ok ==> old(mailbox)[old(scanIndex)].Some? && mailbox == old(mailbox)[old(scanIndex) := None]
      ensures status == NotFound ==> old(mailbox)[old(scanIndex)].None? && mailbox == old(mailbox)
      ensures AllPoliced(devices, old(sent), sent, if status == Ok then 1 else 0)
    {
      hide AgreeBut, Policed;
      var index := scanIndex;
      scanIndex := (scanIndex + 1) % MAILBOXES;
      var value;
      status, value := TakeWrite(index);
      verdict := Ok;
      if status == Ok {
        verdict := Judge(index / REGISTERS, index % REGISTERS, value);
      }
    }

    /** Writes from the host: up to four a step, in scanning order, each one judged like any other. */
    method Collect() returns (result: Status, failed: bool)
      requires Valid()
      modifies this`tick, this`cache, this`bank, this`registry, this`presence, this`online, this`probeDue, this`pollDue
      modifies this`pollIndex, this`faulty, this`sent, this`mailbox, this`scanIndex
      ensures Valid() && (!failed ==> (mailbox, scanIndex) == Sweep(old(mailbox), old(scanIndex), MAILBOXES, TAKEN_PER_STEP))
      ensures AllPoliced(devices, old(sent), sent, TAKEN_PER_STEP)
    {
      hide AgreeBut, Sweep, Policed;
      result, failed := Ok, false;
      var n, taken := 0, 0;
      ghost var target := Sweep(mailbox, scanIndex, MAILBOXES, TAKEN_PER_STEP);
      while n < MAILBOXES && taken < TAKEN_PER_STEP
        invariant 0 <= n <= MAILBOXES && 0 <= taken <= TAKEN_PER_STEP && Valid()
        invariant target == Sweep(mailbox, scanIndex, MAILBOXES - n, TAKEN_PER_STEP - taken)
        invariant AllPoliced(devices, old(sent), sent, taken)
      {
        SweepStep(mailbox, scanIndex, MAILBOXES - n, TAKEN_PER_STEP - taken);
        n := n + 1;
        var status, verdict := NextMailbox();
        if status == Ok {
          taken := taken + 1;
          if verdict != Ok && verdict != Denied {
            result := verdict;
          }
        } else if status != NotFound {
          return status, true;
        }
      }
      SweepOver(mailbox, scanIndex, MAILBOXES - n, TAKEN_PER_STEP - taken);
    }

    /** A write from the host, for whichever PHY it names. */
    method Judge(phy: u8, reg: u8, value: u16) returns (status: Status)
      requires Valid() && reg < REGISTERS
      modifies this`tick, this`cache, this`bank, this`registry, this`presence, this`online, this`probeDue, this`pollDue
      modifies this`pollIndex, this`faulty, this`sent
      ensures Valid()
      ensures sent == old(sent) + if Policed(devices, Write(phy, reg, value)) then [Write(phy, reg, value)] else []
    {
      hide AgreeBut, Allowed;
      OwnAddress();
      var d := FindPhy(phy);
      if d == |devices| {
        return Denied;
      }
      status := WritePhy(d, reg, value);
    }

    /** Reads the identity registers; the registry is told only when both make sense. */
    method AskIdentity(d: nat) returns (status: Status, accepted: bool)
      requires Valid() && d < |devices| && devices[d].regCount >= 4
      modifies this`tick, this`cache, this`bank, this`registry, this`faulty
      ensures |cache| == |old(cache)| == |devices| && if accepted then Valid() && Identified(cache[d]) else ValidBut(d)
      ensures status == Ok && !accepted ==> cache[d][2].valid && cache[d][3].valid && !Identified(cache[d])
      ensures cache == old(cache)[d := old(cache)[d][2 := cache[d][2]][3 := cache[d][3]]]
    {
      hide AgreeBut, MdioConfig.Valid, Shows, Mirrors, Told;
      Sizes(d);
      Opened(d);
      ghost var shown, row := registry[d], cache[d];
      var id1, id2 := 0, 0;
      accepted := false;
      status, id1 := ReadPhy(d, 2, true);
      if status == Ok {
        status, id2 := ReadPhy(d, 3, true);
        assert cache[d] == row[2 := cache[d][2]][3 := cache[d][3]];
        if status == Ok && id1 != NO_VALUE && id2 != NO_VALUE && (id1 != 0 || id2 != 0) {
          accepted := true;
          Accept(d, shown, row);
        }
      }
      SameRow(cache[d], 3);
    }

    /** Tells the registry about an identity that has been accepted. */
    method Accept(d: nat, ghost shown: seq<Shown>, ghost row: Row)
      requires ValidBut(d) && Faced(d) && |registry| == |devices| && registry[d] == shown && devices[d].regCount >= 4
      requires cache[d] == row[2 := cache[d][2]][3 := cache[d][3]] && Shows(shown, row, devices[d].regCount)
      modifies this`registry
      ensures Valid()
    {
      hide AgreeBut, MdioConfig.Valid, Shows, Mirrors, Told;
      Tell(d, 2);
      Tell(d, 3);
      ShowsTwo(shown, row, devices[d].regCount, cache[d][2], cache[d][3]);
      Closed(d);
    }

    /** Asks a PHY who it is; one that does not answer sensibly is forgotten. */
    method Probe(d: nat, now: nat) returns (status: Status)
      requires Valid() && d < |devices| && devices[d].regCount >= 4
      modifies this`tick, this`cache, this`bank, this`registry, this`presence, this`online, this`probeDue, this`pollDue, this`faulty
      ensures Valid() && |old(probeDue)| == |old(online)| == |old(presence)| == |cache| == |old(cache)| == |devices| == |old(pollDue)|
      ensures probeDue == old(probeDue)[d := now + PROBE_MS] && online == old(online)[d := status == Ok]
      ensures presence == old(presence)[d := if status == Ok then PRESENCE_READY else PRESENCE_GONE]
      ensures pollDue == if status == Ok && !old(online)[d] then old(pollDue)[d := 0] else old(pollDue)
      ensures if status == Ok then
                Identified(cache[d]) && cache == old(cache)[d := old(cache)[d][2 := cache[d][2]][3 := cache[d][3]]]
              else cache == old(cache)[d := EmptyRow(REGISTERS)]
    {
      hide AgreeBut, MdioConfig.Valid;
      var accepted;
      status, accepted := AskIdentity(d);
      if accepted {
        Found(d, now);
        return Ok;
      }
      var ignored := Invalidate(d);
      probeDue := probeDue[d := now + PROBE_MS];
      status := if status == Ok then NotReady else status;
    }

    method Found(d: nat, now: nat)
      requires Valid() && d < |devices|
      modifies this`presence, this`online, this`probeDue, this`pollDue
      ensures Valid() && |old(probeDue)| == |old(online)| == |old(presence)| == |devices| == |old(pollDue)|
      ensures probeDue == old(probeDue)[d := now + PROBE_MS] && online == old(online)[d := true]
      ensures presence == old(presence)[d := PRESENCE_READY]
      ensures pollDue == if !old(online)[d] then old(pollDue)[d := 0] else old(pollDue)
    {
      hide AgreeBut;
      if !online[d] {
        pollDue := pollDue[d := 0];
      }
      online, presence := online[d := true], presence[d := PRESENCE_READY];
      probeDue := probeDue[d := now + PROBE_MS];
    }

    /** Refreshes the next register of a device's polling list. */
    method PollOne(d: nat, now: nat) returns (status: Status)
      requires Valid() && d < |devices| && devices[d].autopollRegs != []
      modifies this`tick, this`cache, this`bank, this`registry, this`presence, this`online, this`probeDue, this`pollDue
      modifies this`pollIndex, this`faulty
      ensures Valid() && |cache| == |old(cache)| == |old(online)| == |old(probeDue)| == |old(pollIndex)| == |devices|
      ensures old(pollIndex)[d] < |devices[d].autopollRegs|
      ensures pollIndex == old(pollIndex)[d := (old(pollIndex)[d] + 1) % |devices[d].autopollRegs|]
      ensures var r := devices[d].autopollRegs[old(pollIndex)[d]];
        if status == Ok then
          r < REGISTERS && cache == old(cache)[d := old(cache)[d][r := cache[d][r]]] && cache[d][r].valid && !cache[d][r].seeded
          && online == old(online) && probeDue == old(probeDue)
        else
          cache == old(cache)[d := EmptyRow(REGISTERS)] && online == old(online)[d := false]
          && probeDue == old(probeDue)[d := now + PROBE_MS]
    {
      hide AgreeBut;
      Sizes(d);
      var c := devices[d];
      PolledFits(c, pollIndex[d]);
      var value;
      status, value := Refresh(d, c.autopollRegs[pollIndex[d]]);
      if status != Ok {
        Lost(d, now);
      }
      NextPoll(d, now);
    }

    method Lost(d: nat, now: nat)
      requires Valid() && d < |devices|
      modifies this`tick, this`cache, this`bank, this`registry, this`presence, this`online, this`probeDue, this`faulty
      ensures Valid() && |cache| == |old(cache)| == |old(online)| == |old(probeDue)| == |devices|
      ensures cache == old(cache)[d := EmptyRow(REGISTERS)] && online == old(online)[d := false]
      ensures probeDue == old(probeDue)[d := now + PROBE_MS]
    {
      hide AgreeBut;
      Opened(d);
      var ignored := Invalidate(d);
      probeDue := probeDue[d := now + PROBE_MS];
    }

    method NextPoll(d: nat, now: nat)
      requires Valid() && d < |devices| && devices[d].autopollRegs != []
      modifies this`pollIndex, this`pollDue
      ensures Valid() && |old(pollIndex)| == |devices| == |old(pollDue)|
      ensures pollIndex == old(pollIndex)[d := (old(pollIndex)[d] + 1) % |devices[d].autopollRegs|]
      ensures pollDue == old(pollDue)[d := now + if pollIndex[d] != 0 then devices[d].regDelay
                                           else if devices[d].cycleDelay != 0 then devices[d].cycleDelay else 1]
    {
      hide AgreeBut;
      var c := devices[d];
      Around(pollIndex[d], |c.autopollRegs|);
      if pollIndex[d] + 1 >= |c.autopollRegs| {
        pollIndex := pollIndex[d := 0];
        pollDue := pollDue[d := now + if c.cycleDelay != 0 then c.cycleDelay else 1];
      } else {
        pollIndex := pollIndex[d := pollIndex[d] + 1];
        pollDue := pollDue[d := now + c.regDelay];
      }
    }

    lemma Around(i: nat, n: nat)
      requires n > 0 && (i == 0 || i < n)
      ensures (i + 1) % n == if i + 1 >= n then 0 else i + 1
    {
      if i + 1 >= n {
        assert i + 1 == n;
      }
    }

    /** Probes or polls a device if that is due. */
    method Serve(d: nat, now: nat) returns (served: bool, status: Status)
      requires Valid() && d < |devices|
      modifies this`tick, this`cache, this`bank, this`registry, this`presence, this`online, this`probeDue, this`pollDue
      modifies this`pollIndex, this`faulty
      ensures Valid() && served == old(Due(d, now)) && |cache| == |old(cache)| == |devices|
      ensures !served ==> status == Ok && unchanged(this)
      ensures served ==> cache == old(cache)[d := cache[d]] && (status != Ok ==> cache[d] == EmptyRow(REGISTERS))
    {
      hide AgreeBut, EmptyRow;
      Sizes(d);
      var c := devices[d];
      served, status := true, Ok;
      if now >= probeDue[d] && c.regCount >= 4 {
        status := Probe(d, now);
      } else if c.autopoll && c.autopollRegs != [] && now >= pollDue[d] && (c.regCount < 4 || online[d]) {
        status := PollOne(d, now);
      } else {
        served := false;
      }
    }

    /** One polling item: the first device in turn that is due for a probe or a refresh. */
    method Poll(now: nat) returns (status: Status)
      requires Valid()
      modifies this`tick, this`cache, this`bank, this`registry, this`presence, this`online, this`probeDue, this`pollDue
      modifies this`pollIndex, this`pollDevice, this`faulty
      ensures Valid() && |cache| == |old(cache)| == |devices|
      ensures var n := old(Idle(pollDevice, now, 0));
        if n == |devices| then status == Ok && pollDevice == old(pollDevice) + n && cache == old(cache) && bank == old(bank)
        else
          var d := (old(pollDevice) + n) % |devices|;
          pollDevice == old(pollDevice) + n + 1 && cache == old(cache)[d := cache[d]]
          && (status != Ok ==> cache[d] == EmptyRow(REGISTERS))
    {
      hide AgreeBut, EmptyRow, Due, Idle;
      SizesKept();
      IdleFrom(pollDevice, now, 0);
      status := Ok;
      var n := 0;
      ghost var start := pollDevice;
      while n < |devices|
        invariant 0 <= n <= |devices| && Valid() && pollDevice == start + n && status == Ok
        invariant unchanged(`cache, `bank, `tick, `registry, `presence, `online, `probeDue, `pollDue, `pollIndex, `faulty)
        invariant Idle(start, now, n) == old(Idle(start, now, 0))
      {
        IdleFrom(start, now, n);
        var d := pollDevice % |devices|;
        pollDevice := pollDevice + 1;
        var served;
        served, status := Serve(d, now);
        if served {
          return;
        }
        n := n + 1;
      }
      IdleFrom(start, now, n);
    }

    /** Whether a device has to be probed or polled by now. */
    ghost predicate Due(d: nat, now: nat)
      reads `devices, `probeDue, `pollDue, `online
      requires d < |devices| == |probeDue| == |pollDue| == |online|
    {
      var c := devices[d];
      || (now >= probeDue[d] && c.regCount >= 4)
      || (c.autopoll && c.autopollRegs != [] && now >= pollDue[d] && (c.regCount < 4 || online[d]))
    }

    /** How many devices in turn, from `start` on, have nothing due; the first `n` are known not to. */
    ghost function Idle(start: nat, now: nat, n: nat): (k: nat)
      reads `devices, `probeDue, `pollDue, `online
      requires n <= |devices| == |probeDue| == |pollDue| == |online|
      ensures n <= k <= |devices|
      decreases |devices| - n
    {
      if n == |devices| || Due((start + n) % |devices|, now) then n else Idle(start, now, n + 1)
    }

    lemma IdleFrom(start: nat, now: nat, n: nat)
      requires n <= |devices| == |probeDue| == |pollDue| == |online|
      ensures Idle(start, now, n) == if n == |devices| || Due((start + n) % |devices|, now) then n else Idle(start, now, n + 1)
    {
    }

    lemma SizesKept()
      requires Valid()
      ensures |cache| == |devices|
    {
    }

    /** One turn of the worker; whatever happens on the bus, the three copies agree when it is over. */
    method Step(now: nat) returns (result: Status, failed: bool)
      requires Valid()
      modifies this`tick, this`cache, this`bank, this`registry, this`presence, this`online, this`probeDue, this`pollDue
      modifies this`pollIndex, this`pollDevice, this`faulty, this`sent, this`mailbox, this`scanIndex
      ensures Valid() && (!failed ==> (mailbox, scanIndex) == Sweep(old(mailbox), old(scanIndex), MAILBOXES, TAKEN_PER_STEP))
      ensures AllPoliced(devices, old(sent), sent, TAKEN_PER_STEP)
    {
      hide AgreeBut, Sweep, Shaped, Policed;
      result, failed := Collect();
      var polled := Poll(now);
      if polled != Ok {
        result := polled;
      }
    }
  }

  // ----- What the operations do to a device's row

  /** A reset of the PHY, on the control register. */
  predicate Resets(r: u8, value: u16) { r == 0 && value >= 0x8000 }

  /** What is still believed of a row once a write has been sent. */
  function Forgotten(row: Row, r: u8, value: u16): Row
    requires r < REGISTERS
  {
    if Resets(r, value) then EmptyRow(REGISTERS) else row[r := row[r].(valid := false)]
  }

  /** The identity registers make sense: the line is driven, and not all zeros. */
  predicate Identified(row: Row) {
    row[2].valid && row[3].valid && row[2].value != NO_VALUE && row[3].value != NO_VALUE && (row[2].value != 0 || row[3].value != 0)
  }

  predicate Afresh(was: Config, c: Config) { c.phyAddr != was.phyAddr || c.regCount != was.regCount || c.settings != was.settings }

  /** The first `n` settings are in place, marked as such, and nothing else has changed. */
  ghost predicate SeededFrom(before: Row, after: Row, settings: seq<Setting>, n: nat) {
    && n <= |settings| && (forall i :: 0 <= i < n ==> SetTo(after, settings[i]))
    && (forall r :: 0 <= r < REGISTERS && (forall i :: 0 <= i < n ==> settings[i].reg != r) ==> after[r] == before[r])
  }

  predicate SetTo(row: Row, setting: Setting) {
    setting.reg < REGISTERS && row[setting.reg] == Entry(setting.val, true, true, row[setting.reg].updatedMs)
  }

  lemma SeededNone(row: Row, settings: seq<Setting>)
    ensures SeededFrom(row, row, settings, 0)
  {
  }

  lemma SeededNext(before: Row, row: Row, c: Config, i: nat, e: Entry)
    requires MdioConfig.Valid(c) && i < |c.settings| && SeededFrom(before, row, c.settings, i)
    requires e == Entry(c.settings[i].val, true, true, e.updatedMs) && c.settings[i].reg < REGISTERS
    ensures SeededFrom(before, row[c.settings[i].reg := e], c.settings, i + 1)
  {
    var regs := SettingRegs(c.settings);
    forall k | 0 <= k < i ensures SetTo(row[c.settings[i].reg := e], c.settings[k]) {
      assert SetTo(row, c.settings[k]) && regs[k] != regs[i];
    }
    forall r | 0 <= r < REGISTERS && (forall k :: 0 <= k < i + 1 ==> c.settings[k].reg != r)
      ensures row[c.settings[i].reg := e][r] == before[r]
    {
      assert c.settings[i].reg != r;
    }
  }

  lemma SettingFits(c: Config, i: nat)
    requires MdioConfig.Valid(c) && i < |c.settings|
    ensures c.settings[i].reg < c.regCount <= REGISTERS
  {
  }

  lemma PolledFits(c: Config, i: nat)
    requires MdioConfig.Valid(c) && i < |c.autopollRegs|
    ensures c.autopollRegs[i] < c.regCount <= REGISTERS
  {
  }

  /** A write to the hardware that some device's policy allows. */
  ghost predicate Policed(devices: seq<Config>, w: Write) {
    exists d :: 0 <= d < |devices| && devices[d].phyAddr == w.phy && Allowed(devices[d], w.reg, w.value)
  }

  /** At most `max` writes have been sent in the meantime, every one of them allowed. */
  ghost predicate AllPoliced(devices: seq<Config>, before: seq<Write>, after: seq<Write>, max: nat) {
    before <= after && |after| <= |before| + max && forall i :: |before| <= i < |after| ==> Policed(devices, after[i])
  }

  lemma ShowsTwo(shown: seq<Shown>, row: Row, count: nat, a: Entry, b: Entry)
    requires Shows(shown, row, count) && count >= 4
    ensures var last := row[2 := a][3 := b]; Shows(Told(Told(shown, last, 2), last, 3), last, count)
  {
  }

  // ----- How long a mailbox write waits

  /** What a scan of `n` mailboxes takes, at most `room` writes, from `scan` on. */
  function Sweep(mailbox: seq<Option<u16>>, scan: nat, n: nat, room: nat): (r: (seq<Option<u16>>, nat))
    requires |mailbox| == MAILBOXES && scan < MAILBOXES
    ensures |r.0| == MAILBOXES && r.1 < MAILBOXES
    decreases n
  {
    if n == 0 || room == 0 then (mailbox, scan)
    else if mailbox[scan].Some? then Sweep(mailbox[scan := None], (scan + 1) % MAILBOXES, n - 1, room - 1)
    else Sweep(mailbox, (scan + 1) % MAILBOXES, n - 1, room)
  }

  lemma SweepStep(mailbox: seq<Option<u16>>, scan: nat, n: nat, room: nat)
    requires |mailbox| == MAILBOXES && scan < MAILBOXES && n > 0 && room > 0
    ensures Sweep(mailbox, scan, n, room) ==
            if mailbox[scan].Some? then Sweep(mailbox[scan := None], (scan + 1) % MAILBOXES, n - 1, room - 1)
            else Sweep(mailbox, (scan + 1) % MAILBOXES, n - 1, room)
  {
  }

  lemma SweepOver(mailbox: seq<Option<u16>>, scan: nat, n: nat, room: nat)
    requires |mailbox| == MAILBOXES && scan < MAILBOXES && (n == 0 || room == 0)
    ensures Sweep(mailbox, scan, n, room) == (mailbox, scan)
  {
  }

  /** How many mailboxes the scan passes before it reaches `k`. */
  function Ahead(scan: nat, k: nat): nat { (k + MAILBOXES - scan % MAILBOXES) % MAILBOXES }

  /** A scan that does not take a pending write gets strictly nearer to it, by as many writes as it could take. */
  lemma {:induction false} SweepNears(mailbox: seq<Option<u16>>, scan: nat, n: nat, room: nat, k: nat)
    requires |mailbox| == MAILBOXES && scan < MAILBOXES && k < MAILBOXES && mailbox[k].Some? && n > Ahead(scan, k)
    ensures var (after, next) := Sweep(mailbox, scan, n, room);
      after[k] == None || Ahead(next, k) + room <= Ahead(scan, k)
    decreases n
  {
    hide Sweep, Ahead;
    AheadStep(scan, k);
    if room == 0 {
      SweepOver(mailbox, scan, n, room);
    } else {
      SweepStep(mailbox, scan, n, room);
      var next := (scan + 1) % MAILBOXES;
      if scan == k {
        Taken1(mailbox[k := None], next, n - 1, room - 1, k);
      } else {
        if mailbox[scan].Some? {
          SweepNears(mailbox[scan := None], next, n - 1, room - 1, k);
        } else {
          SweepNears(mailbox, next, n - 1, room, k);
        }
      }
    }
  }

  lemma AheadStep(scan: nat, k: nat)
    requires scan < MAILBOXES && k < MAILBOXES
    ensures Ahead(scan, k) == if scan <= k then k - scan else k + MAILBOXES - scan
    ensures scan != k ==> Ahead((scan + 1) % MAILBOXES, k) == Ahead(scan, k) - 1
  {
  }

  lemma {:induction false} Taken1(mailbox: seq<Option<u16>>, scan: nat, n: nat, room: nat, k: nat)
    requires |mailbox| == MAILBOXES && scan < MAILBOXES && k < MAILBOXES && mailbox[k] == None
    ensures Sweep(mailbox, scan, n, room).0[k] == None
    decreases n
  {
    if n > 0 && room > 0 {
      if mailbox[scan].Some? {
        Taken1(mailbox[scan := None], (scan + 1) % MAILBOXES, n - 1, room - 1, k);
      } else {
        Taken1(mailbox, (scan + 1) % MAILBOXES, n - 1, room, k);
      }
    }
  }

  /** The scan position at the start of each step, the host having left whatever it pleased in the meantime. */
  function ScanAt(scan: nat, seen: seq<seq<Option<u16>>>): nat
    requires scan < MAILBOXES && forall i :: 0 <= i < |seen| ==> |seen[i]| == MAILBOXES
    ensures ScanAt(scan, seen) < MAILBOXES
  {
    if seen == [] then scan
    else
      var n := |seen| - 1;
      Sweep(seen[n], ScanAt(scan, seen[..n]), MAILBOXES, TAKEN_PER_STEP).1
  }

  predicate TakenIn(seen: seq<seq<Option<u16>>>, scan: nat, i: nat, k: nat)
    requires scan < MAILBOXES && (forall j :: 0 <= j < |seen| ==> |seen[j]| == MAILBOXES) && i < |seen| && k < MAILBOXES
  {
    Sweep(seen[i], ScanAt(scan, seen[..i]), MAILBOXES, TAKEN_PER_STEP).0[k] == None
  }

  /** A write waiting in a mailbox is taken within 256 steps, whatever else the host posts. */
  lemma WaitsAtMost256(seen: seq<seq<Option<u16>>>, scan: nat, k: nat)
    requires |seen| == 256 && scan < MAILBOXES && k < MAILBOXES
    requires forall i :: 0 <= i < |seen| ==> |seen[i]| == MAILBOXES && seen[i][k].Some?
    ensures exists i :: 0 <= i < |seen| && TakenIn(seen, scan, i, k)
  {
    if forall i :: 0 <= i < |seen| ==> !TakenIn(seen, scan, i, k) {
      Nearer(seen, scan, k, 256);
    }
  }

  lemma {:induction false} Nearer(seen: seq<seq<Option<u16>>>, scan: nat, k: nat, n: nat)
    requires scan < MAILBOXES && k < MAILBOXES && n <= |seen|
    requires forall i :: 0 <= i < |seen| ==> |seen[i]| == MAILBOXES && seen[i][k].Some?
    requires forall i :: 0 <= i < |seen| ==> !TakenIn(seen, scan, i, k)
    ensures Ahead(ScanAt(scan, seen[..n]), k) + TAKEN_PER_STEP * n <= Ahead(scan, k) < MAILBOXES
  {
    if n > 0 {
      Nearer(seen, scan, k, n - 1);
      var shorter := seen[..n];
      assert shorter[..n - 1] == seen[..n - 1];
      assert !TakenIn(seen, scan, n - 1, k);
      SweepNears(seen[n - 1], ScanAt(scan, seen[..n - 1]), MAILBOXES, TAKEN_PER_STEP, k);
    } else {
      assert seen[..0] == [];
    }
  }

  ghost predicate Taken(devices: seq<Config>, d: nat, phy: u8) {
    exists k :: 0 <= k < |devices| && k != d && devices[k].phyAddr == phy
  }

  /** The catalog the registry takes over: the first `count` registers of a device. */
  function Described(row: Row, count: nat): (s: seq<Shown>)
    requires count <= REGISTERS
    ensures |s| == count && forall r :: 0 <= r < count ==> s[r] == Show(row[r])
  {
    if count == 0 then [] else Described(row, count - 1) + [Show(row[count - 1])]
  }

  lemma AgreeRedefined(devices: seq<Config>, cache: seq<Row>, bank: seq<BankRow>, registry: seq<seq<Shown>>, faulty: bool,
                       d: nat, c: Config)
    requires AgreeBut(devices, cache, bank, registry, faulty, |devices|) && d < |devices|
    requires MdioConfig.Valid(c) && c.regCount <= REGISTERS && !Taken(devices, d, c.phyAddr)
    requires cache[d] == EmptyRow(REGISTERS) || (c.phyAddr == devices[d].phyAddr && c.regCount == devices[d].regCount)
    ensures AgreeBut(devices[d := c], cache, bank, registry[d := Described(cache[d], c.regCount)], faulty, |devices|)
  {
    hide MdioConfig.Valid, Mirrors, Blank, Shows, Within, Nobody, Taken, Described;
    CountFits(c);
    AddressesApart(devices, d, c);
    RowRedefined(cache[d], devices[d].regCount, c.regCount);
    var after := devices[d := c];
    if !faulty {
      forall i | 0 <= i < |after| ensures Mirrors(bank[after[i].phyAddr], cache[i]) {
        if i == d && c.phyAddr != devices[d].phyAddr {
          NobodyThere(devices, d, c);
          BlankMirrors(bank[c.phyAddr]);
        } else {
          assert Mirrors(bank[devices[i].phyAddr], cache[i]);
        }
      }
      forall p | 0 <= p < PHYS && Nobody(after, p) ensures Blank(bank[p]) {
        if !Nobody(devices, p) {
          NobodyBut(devices, d, c, p);
          assert Mirrors(bank[devices[d].phyAddr], cache[d]);
          BlankMirrors(bank[p]);
        }
      }
    }
  }

  lemma AddressesApart(devices: seq<Config>, d: nat, c: Config)
    requires Configured(devices) && d < |devices| && MdioConfig.Valid(c) && c.regCount <= REGISTERS && !Taken(devices, d, c.phyAddr)
    ensures Configured(devices[d := c])
  {
    hide MdioConfig.Valid;
    CountFits(c);
    var after := devices[d := c];
    forall i, j | 0 <= i < j < |after| ensures after[i].phyAddr != after[j].phyAddr {
      assert i == d || after[i] == devices[i];
      assert j == d || after[j] == devices[j];
      assert !(i != d && devices[i].phyAddr == c.phyAddr) && !(j != d && devices[j].phyAddr == c.phyAddr);
    }
  }

  /** A row that is empty or keeps its count can be described with the new count. */
  lemma RowRedefined(row: Row, before: nat, count: nat)
    requires before <= REGISTERS && count <= REGISTERS && Within(row, before) && (row == EmptyRow(REGISTERS) || count == before)
    ensures Within(row, count) && Shows(Described(row, count), row, count)
  {
  }

  lemma NobodyThere(devices: seq<Config>, d: nat, c: Config)
    requires d < |devices| && c.phyAddr != devices[d].phyAddr && !Taken(devices, d, c.phyAddr)
    ensures Nobody(devices, c.phyAddr)
  {
    forall k | 0 <= k < |devices| ensures devices[k].phyAddr != c.phyAddr {
      assert k == d || !(k != d && devices[k].phyAddr == c.phyAddr);
    }
  }

  /** A blank row of the bank is the face of an empty row of the cache, and of no other. */
  lemma BlankMirrors(face: BankRow)
    ensures Blank(face) <==> Mirrors(face, EmptyRow(REGISTERS))
  {
  }

  lemma RowsAtStart(count: nat)
    requires count <= REGISTERS
    ensures Mirrors(BlankRow(REGISTERS), EmptyRow(REGISTERS)) && Blank(BlankRow(REGISTERS))
    ensures Within(EmptyRow(REGISTERS), count) && Shows(Unshown(count), EmptyRow(REGISTERS), count)
  {
  }

  lemma AgreeMade(devices: seq<Config>, cache: seq<Row>, bank: seq<BankRow>, registry: seq<seq<Shown>>)
    requires Configured(devices) && |cache| == |registry| == |devices| && |bank| == PHYS
    requires forall d :: 0 <= d < |devices| ==>
               cache[d] == EmptyRow(REGISTERS) && registry[d] == Unshown(devices[d].regCount)
    requires forall p :: 0 <= p < PHYS ==> bank[p] == BlankRow(REGISTERS)
    ensures AgreeBut(devices, cache, bank, registry, false, |devices|)
  {
    hide MdioConfig.Valid, Mirrors, Blank, Within, Shows, EmptyRow, BlankRow, Unshown;
    forall d | 0 <= d < |devices|
      ensures Within(cache[d], devices[d].regCount) && |registry[d]| == devices[d].regCount
              && Shows(registry[d], cache[d], devices[d].regCount) && Mirrors(bank[devices[d].phyAddr], cache[d])
    {
      RowsAtStart(devices[d].regCount);
    }
    RowsAtStart(0);
  }

  lemma AgreeStart(devices: seq<Config>)
    requires Configured(devices)
    ensures AgreeBut(devices, Repeat(EmptyRow(REGISTERS), |devices|), Repeat(BlankRow(REGISTERS), PHYS), Hidden(devices), false,
                     |devices|)
  {
    hide AgreeBut, Configured, EmptyRow, BlankRow, Unshown, Repeat, Hidden;
    AgreeMade(devices, Repeat(EmptyRow(REGISTERS), |devices|), Repeat(BlankRow(REGISTERS), PHYS), Hidden(devices));
  }

  lemma CountFits(c: Config)
    requires MdioConfig.Valid(c)
    ensures 0 < c.regCount <= REGISTERS && c.phyAddr < PHYS
  {
  }

  lemma NobodyBut(devices: seq<Config>, d: nat, c: Config, p: nat)
    requires d < |devices| && Nobody(devices[d := c], p)
    ensures c.phyAddr != p && (Nobody(devices, p) || devices[d].phyAddr == p)
  {
    var after := devices[d := c];
    assert after[d].phyAddr != p;
    if devices[d].phyAddr != p {
      forall k | 0 <= k < |devices| ensures devices[k].phyAddr != p { assert k == d || after[k] == devices[k]; }
    }
  }

  lemma AllowedInRange(c: Config, reg: u8, value: u16)
    requires Allowed(c, reg, value)
    ensures reg < c.regCount
  {
  }

  lemma ShowsSet(shown: seq<Shown>, row: Row, count: nat, r: u8, e: Entry)
    requires Shows(shown, row, count) && r < REGISTERS
    ensures Shows(Told(shown, row[r := e], r), row[r := e], count)
  {
  }

  lemma SameRow<T>(rows: seq<T>, i: nat)
    requires i < |rows|
    ensures rows[i := rows[i]] == rows
  {
  }

  function Told(shown: seq<Shown>, row: Row, r: u8): seq<Shown>
    requires r < REGISTERS
  {
    if r < |shown| then shown[r := Show(row[r])] else shown
  }

  function Repeat<T>(x: T, n: nat): (r: seq<T>)
    ensures |r| == n && forall i :: 0 <= i < n ==> r[i] == x
  {
    if n == 0 then [] else Repeat(x, n - 1) + [x]
  }

  function Unshown(n: nat): (r: seq<Shown>)
    ensures |r| == n && forall i :: 0 <= i < n ==> r[i] == Show(EMPTY)
  {
    if n == 0 then [] else Unshown(n - 1) + [Show(EMPTY)]
  }

  function Hidden(devices: seq<Config>): (r: seq<seq<Shown>>)
    ensures |r| == |devices| && forall d :: 0 <= d < |r| ==> r[d] == Unshown(devices[d].regCount)
  {
    if devices == [] then [] else [Unshown(devices[0].regCount)] + Hidden(devices[1..])
  }
}
