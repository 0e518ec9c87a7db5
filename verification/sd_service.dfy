/**
 The SD card service: what its driver is asked to do, and in which order, over whole runs.
 */
module SdService {
  import opened Words
  import opened Statuses

  const BLOCK_SIZE := 512
  const BLOCK_ADDRESSED: u32 := 0x4000_0000
  const TIMEOUT_MAX := 120000
  const NO_MISMATCH: u32 := 0xFFFF_FFFF

  const STATUS: u8 := 13
  const BLOCK_LENGTH: u8 := 16
  const READ_BLOCK: u8 := 17
  const WRITE_BLOCK: u8 := 24

  /** One thing asked of the driver, and how it went; or a public operation coming to its end. */
  datatype Call =
    | Init(explicit: bool, status: Status, ocr: u32)
    | Command(code: u8, argument: u32, sent: Option<Bytes>, received: Option<Bytes>, status: Status)
    | Done(status: Status)

  // ----- The discipline, as an observer of the calls checks it

  /** What the observer knows of the card: its OCR while it may be used, and whether a command has been spent. */
  datatype Card = Card(known: Option<u32>, unused: bool)

  predicate Aborts(status: Status) { status == Io || status == Timeout || status == Internal }

  function Watch(card: Card, call: Call, isolated: bool): Option<Card> {
    match call
    case Init(explicit, status, ocr) =>
      if status != Ok then Some(if explicit then Card(None, false) else card.(unused := false))
      else if explicit then Some(Card(Some(ocr), true))
      else Some(card.(unused := card.known == Some(ocr)))
    case Command(_, _, _, _, _) =>
      if card.known == None || (isolated && !card.unused) then None else Some(card.(unused := false))
    case Done(status) => Some(if Aborts(status) then card.(known := None) else card)
  }

  /** The verdict on a whole trace; None is a command that should not have been issued. */
  function Observed(trace: seq<Call>, isolated: bool): Option<Card> {
    if trace == [] then Some(Card(None, false))
    else
      var n := |trace| - 1;
      match Observed(trace[..n], isolated)
      case None => None
      case Some(card) => Watch(card, trace[n], isolated)
  }

  lemma ObservedAppend(trace: seq<Call>, call: Call, isolated: bool)
    requires Observed(trace, isolated).Some?
    ensures Observed(trace + [call], isolated) == Watch(Observed(trace, isolated).value, call, isolated)
  {
    assert (trace + [call])[..|trace|] == trace;
  }

  lemma {:induction false} ObservedPrefix(trace: seq<Call>, n: nat, isolated: bool)
    requires Observed(trace, isolated).Some? && n <= |trace|
    ensures Observed(trace[..n], isolated).Some?
  {
    if n < |trace| {
      var m := |trace| - 1;
      ObservedPrefix(trace[..m], n, isolated);
      assert trace[..m][..n] == trace[..n];
    } else {
      assert trace[..n] == trace;
    }
  }

  ghost predicate InitBetween(trace: seq<Call>, from: nat, to: nat, explicit: bool) {
    exists k :: from <= k < to && k < |trace| && trace[k].Init? && trace[k].status == Ok && (explicit ==> trace[k].explicit)
  }

  /** An unused card was initialized since the last command. */
  lemma {:induction false} UnusedSince(trace: seq<Call>, isolated: bool, i: nat)
    requires Observed(trace, isolated).Some? && Observed(trace, isolated).value.unused
    requires i < |trace| && trace[i].Command?
    ensures InitBetween(trace, i + 1, |trace|, false)
  {
    var n := |trace| - 1;
    var last := trace[n];
    if last.Init? && last.status == Ok {
      assert trace[n] == last;
    } else {
      UnusedSince(trace[..n], isolated, i);
      var k :| i + 1 <= k < n && trace[..n][k].Init? && trace[..n][k].status == Ok;
      assert trace[k] == trace[..n][k];
    }
  }

  /** In the isolated profile no two commands share an initialization. */
  lemma CommandsAreIsolated(trace: seq<Call>, i: nat, j: nat)
    requires Observed(trace, true).Some? && i < j < |trace| && trace[i].Command? && trace[j].Command?
    ensures InitBetween(trace, i + 1, j, false)
  {
    ObservedPrefix(trace, j + 1, true);
    var upto := trace[..j + 1];
    assert upto[..j] == trace[..j];
    UnusedSince(trace[..j], true, i);
    var k :| i + 1 <= k < j && trace[..j][k].Init? && trace[..j][k].status == Ok;
    assert trace[k] == trace[..j][k];
  }

  /** A known card was initialized on request since the last abort. */
  lemma {:induction false} KnownSince(trace: seq<Call>, isolated: bool, p: nat)
    requires Observed(trace, isolated).Some? && Observed(trace, isolated).value.known.Some?
    requires p < |trace| && trace[p].Done? && Aborts(trace[p].status)
    ensures InitBetween(trace, p + 1, |trace|, true)
  {
    var n := |trace| - 1;
    var last := trace[n];
    if last.Init? && last.status == Ok && last.explicit {
      assert trace[n] == last;
    } else {
      KnownSince(trace[..n], isolated, p);
      var k :| p + 1 <= k < n && trace[..n][k].Init? && trace[..n][k].status == Ok && trace[..n][k].explicit;
      assert trace[k] == trace[..n][k];
    }
  }

  /** After a failed transfer nothing is asked of the card until somebody initializes it on purpose. */
  lemma NoCommandAfterAbort(trace: seq<Call>, isolated: bool, p: nat, j: nat)
    requires Observed(trace, isolated).Some? && p < j < |trace|
    requires trace[p].Done? && Aborts(trace[p].status) && trace[j].Command?
    ensures InitBetween(trace, p + 1, j, true)
  {
    ObservedPrefix(trace, j + 1, isolated);
    var upto := trace[..j + 1];
    assert upto[..j] == trace[..j];
    KnownSince(trace[..j], isolated, p);
    var k :| p + 1 <= k < j && trace[..j][k].Init? && trace[..j][k].status == Ok && trace[..j][k].explicit;
    assert trace[k] == trace[..j][k];
  }

  /** The OCR a command relies on is the one of the last initialization somebody asked for. */
  function Expected(trace: seq<Call>): Option<u32> {
    if trace == [] then None
    else
      var last := trace[|trace| - 1];
      if last.Init? && last.explicit then (if last.status == Ok then Some(last.ocr) else None)
      else Expected(trace[..|trace| - 1])
  }

  lemma {:induction false} KnownIsExpected(trace: seq<Call>, isolated: bool)
    requires Observed(trace, isolated).Some? && Observed(trace, isolated).value.known.Some?
    ensures Expected(trace) == Observed(trace, isolated).value.known
  {
    var n := |trace| - 1;
    var last := trace[n];
    if !(last.Init? && last.explicit) {
      KnownIsExpected(trace[..n], isolated);
    }
  }

  /** Every initialization the isolated profile slips in ahead of a command found the same card. */
  lemma {:induction false} SameCard(trace: seq<Call>, j: nat, k: nat)
    requires Observed(trace, true).Some? && k < j < |trace| && trace[j].Command?
    requires trace[k].Init? && (forall m :: k < m < j ==> trace[m].Done? && !Aborts(trace[m].status))
    ensures trace[k].status == Ok && Expected(trace[..j]) == Some(trace[k].ocr)
  {
    ObservedPrefix(trace, j + 1, true);
    ObservedPrefix(trace, j, true);
    assert trace[..j + 1][..j] == trace[..j];
    KnownIsExpected(trace[..j], true);
    QuietSince(trace[..j], k);
  }

  lemma {:induction false} QuietSince(trace: seq<Call>, k: nat)
    requires Observed(trace, true).Some? && Observed(trace, true).value.unused
    requires Observed(trace, true).value.known.Some?
    requires k < |trace| && trace[k].Init? && (forall m :: k < m < |trace| ==> trace[m].Done? && !Aborts(trace[m].status))
    ensures trace[k].status == Ok && Observed(trace, true).value.known == Some(trace[k].ocr)
  {
    var n := |trace| - 1;
    if k < n {
      assert trace[n].Done?;
      QuietSince(trace[..n], k);
    }
  }

  // ----- Test patterns

  function Scrambled(state: bv32): bv32 {
    var a := state ^ (state << 13);
    var b := a ^ (a >> 17);
    b ^ (b << 5)
  }

  function Noise(state: bv32, n: nat): (b: Bytes)
    ensures |b| == n
    decreases n
  {
    if n == 0 then []
    else
      var next := Scrambled(state);
      [next as int % 0x100] + Noise(next, n - 1)
  }

  /** The low `width` bytes of `v`, least significant first. */
  function Le(width: nat, v: nat): (b: Bytes)
    ensures |b| == width
  {
    if width == 0 then [] else [v % 0x100] + Le(width - 1, v / 0x100)
  }

  function Seeded(lba: u32, seed: u32): bv32 {
    var state := (seed as bv32) ^ (lba as bv32) ^ 0x9e37_79b9;
    if state == 0 then 1 else state
  }

  /** A block that names its own sector and seed. */
  function Pattern(lba: u32, seed: u32): (b: Bytes)
    ensures |b| == BLOCK_SIZE
  {
    Le(4, lba) + Le(4, seed) + Noise(Seeded(lba, seed), BLOCK_SIZE)[8..]
  }

  lemma {:induction false} LeDistinct(width: nat, a: nat, b: nat)
    requires Le(width, a) == Le(width, b) && a < Limit(width) && b < Limit(width)
    ensures a == b
  {
    if width > 0 {
      assert Le(width, a)[0] == a % 0x100 && Le(width, b)[0] == b % 0x100;
      assert Le(width, a)[1..] == Le(width - 1, a / 0x100) && Le(width, b)[1..] == Le(width - 1, b / 0x100);
      LeDistinct(width - 1, a / 0x100, b / 0x100);
    }
  }

  /** No two sectors of a test carry the same block, so a sector read under another's name is noticed. */
  lemma PatternsDiffer(a: u32, b: u32, seed: u32)
    requires a != b
    ensures Pattern(a, seed) != Pattern(b, seed)
  {
    hide Noise;
    if Pattern(a, seed) == Pattern(b, seed) {
      Limits();
      assert Pattern(a, seed)[..4] == Le(4, a) && Pattern(b, seed)[..4] == Le(4, b);
      LeDistinct(4, a, b);
    }
  }

  // ----- The service

  /** What the driver, the card and the bus make of one call. */
  datatype Answer = Answer(status: Status, ocr: u32, data: Block)

  type Block = b: Bytes | |b| == BLOCK_SIZE witness Noise(1, BLOCK_SIZE)

  /** `sent` reached the card at `argument` without an error, and later the same block came back from there. */
  ghost predicate Verified(trace: seq<Call>, from: nat, argument: u32, block: Bytes) {
    exists i, j :: from <= i < j < |trace| && Wrote(trace[i], argument, block) && Returned(trace[j], argument, block)
  }

  predicate Wrote(call: Call, argument: u32, block: Bytes) {
    call == Command(WRITE_BLOCK, argument, Some(block), None, Ok)
  }

  predicate Returned(call: Call, argument: u32, block: Bytes) {
    call == Command(READ_BLOCK, argument, None, Some(block), Ok)
  }

  predicate Answered(call: Call, code: u8, argument: u32) { call == Command(code, argument, None, None, Ok) }

  /** Where a sector sits in the card's address space. */
  function Argument(addressed: bool, lba: nat): Option<u32> {
    if addressed then (if lba > 0xFFFF_FFFF then None else Some(lba))
    else if lba > 0xFFFF_FFFF / BLOCK_SIZE then None else Some(lba * BLOCK_SIZE)
  }

  /** Sector `k` of a test range has been written with its own pattern by one of these calls. */
  ghost predicate SectorWritten(calls: seq<Call>, addressed: bool, lba: u32, seed: u32, k: nat) {
    lba + k <= 0xFFFF_FFFF && Argument(addressed, lba + k).Some?
    && exists i :: 0 <= i < |calls| && Wrote(calls[i], Argument(addressed, lba + k).value, Pattern(lba + k, seed))
  }

  /** Sector `k` of a test range has come back with its own pattern from one of these calls. */
  ghost predicate SectorReturned(calls: seq<Call>, addressed: bool, lba: u32, seed: u32, k: nat) {
    lba + k <= 0xFFFF_FFFF && Argument(addressed, lba + k).Some?
    && exists i :: 0 <= i < |calls| && Returned(calls[i], Argument(addressed, lba + k).value, Pattern(lba + k, seed))
  }

  lemma SectorsKept(calls: seq<Call>, more: seq<Call>, addressed: bool, lba: u32, seed: u32, k: nat)
    ensures SectorWritten(calls, addressed, lba, seed, k) ==> SectorWritten(calls + more, addressed, lba, seed, k)
    ensures SectorReturned(calls, addressed, lba, seed, k) ==> SectorReturned(calls + more, addressed, lba, seed, k)
  {
    hide Pattern;
    assert forall i :: 0 <= i < |calls| ==> (calls + more)[i] == calls[i];
  }

  /** Bit 30 of the OCR: the card counts in blocks, not in bytes. */
  predicate HighCapacity(ocr: u32) { ocr / BLOCK_ADDRESSED % 2 == 1 }

  class Service {
    const isolated: bool
    const world: nat -> Answer
    var tick: nat
    var ready: bool
    var blockAddressed: bool
    var filesystemOwned: bool
    var ocr: u32
    var commandSinceInit: bool
    ghost var trace: seq<Call>

    ghost predicate Valid()
      reads this
    {
      && Observed(trace, isolated).Some?
      && (ready ==>
            var card := Observed(trace, isolated).value;
            && card.known == Some(ocr)
            && (isolated ==> blockAddressed && (!commandSinceInit ==> card.unused)))
    }

    constructor (isolated: bool, world: nat -> Answer)
      ensures Valid() && !ready && !filesystemOwned && trace == []
    {
      this.isolated, this.world := isolated, world;
      tick, ready, blockAddressed, filesystemOwned, ocr, commandSinceInit, trace := 0, false, false, false, 0, false, [];
    }

    /** The driver's initialization sequence. */
    method Initialization(explicit: bool) returns (status: Status, reply: u32)
      requires Observed(trace, isolated).Some?
      modifies this`tick, this`trace
      ensures trace == old(trace) + [Init(explicit, status, reply)]
      ensures Observed(trace, isolated) == Watch(old(Observed(trace, isolated).value), Init(explicit, status, reply), isolated)
    {
      var a := world(tick);
      tick := tick + 1;
      status, reply := a.status, a.ocr;
      ObservedAppend(trace, Init(explicit, status, reply), isolated);
      trace := trace + [Init(explicit, status, reply)];
    }

    /** One card command; reading commands bring back a block. */
    method Issue(code: u8, argument: u32, sent: Option<Block>) returns (status: Status, received: Block)
      requires Observed(trace, isolated).Some? && Observed(trace, isolated).value.known.Some?
      requires isolated ==> Observed(trace, isolated).value.unused
      modifies this`tick, this`trace
      ensures trace == old(trace) + [Command(code, argument, sent, if code == READ_BLOCK then Some(received) else None, status)]
      ensures Observed(trace, isolated) == Some(old(Observed(trace, isolated).value).(unused := false))
    {
      var a := world(tick);
      tick := tick + 1;
      status, received := a.status, a.data;
      ghost var call := Command(code, argument, sent, if code == READ_BLOCK then Some(received) else None, status);
      ObservedAppend(trace, call, isolated);
      trace := trace + [call];
    }

    function Admission(requireReady: bool, filesystem: bool): Status
      reads this
    {
      if filesystemOwned != filesystem then Busy else if requireReady && !ready then NotReady else Ok
    }

    /** A failed transfer makes the card unusable until it is initialized again. */
    method Finish(status: Status)
      requires Valid()
      modifies this`ready, this`trace
      ensures Valid() && trace == old(trace) + [Done(status)] && ready == (old(ready) && !Aborts(status))
    {
      ObservedAppend(trace, Done(status), isolated);
      trace := trace + [Done(status)];
      if Aborts(status) {
        ready := false;
      }
    }

    function Reach(lba: nat): Option<u32>
      reads this
    {
      Argument(blockAddressed, lba)
    }

    /** In the isolated profile a spent card is initialized anew, and must turn out to be the same card. */
    method PrepareCommand() returns (status: Status)
      requires Valid() && ready
      modifies this`tick, this`commandSinceInit, this`trace
      ensures Valid() && old(trace) <= trace
      ensures status == Ok && isolated ==> Observed(trace, isolated).value.unused
    {
      if !isolated || !commandSinceInit {
        return Ok;
      }
      var reply;
      status, reply := Initialization(false);
      if status != Ok {
        return;
      }
      if reply != ocr {
        return Io;
      }
      commandSinceInit := false;
    }

    method Transfer(lba: u32, sent: Option<Block>) returns (status: Status, received: Block)
      requires Valid() && ready
      modifies this`tick, this`commandSinceInit, this`trace
      ensures Valid() && old(trace) <= trace
      ensures status == Ok ==>
                && Reach(lba).Some? && |trace| > |old(trace)|
                && trace[|trace| - 1] == Command(if sent.Some? then WRITE_BLOCK else READ_BLOCK, Reach(lba).value, sent,
                                                 if sent.Some? then None else Some(received), Ok)
    {
      received := Noise(1, BLOCK_SIZE);
      if Reach(lba).None? {
        return Range, received;
      }
      status := PrepareCommand();
      if status != Ok {
        return;
      }
      commandSinceInit := true;
      status, received := Issue(if sent.Some? then WRITE_BLOCK else READ_BLOCK, Reach(lba).value, sent);
    }

    /** The card has just been initialized on request: what was asked of it, and what is known of it since. */
    ghost predicate Attempted(before: seq<Call>, status: Status)
      reads this
    {
      && before < trace && trace[|before|].Init? && trace[|before|].explicit && trace[|trace| - 1] == Done(status)
      && ready == (status == Ok)
      && var first := trace[|before|];
         if first.status != Ok then status == first.status && |trace| == |before| + 2
         else
           && ocr == first.ocr && blockAddressed == HighCapacity(first.ocr)
           && if blockAddressed then status == Ok && |trace| == |before| + 2
              else if isolated then status == Unsupported && |trace| == |before| + 2
              else |trace| == |before| + 3 && trace[|before| + 1] == Command(BLOCK_LENGTH, BLOCK_SIZE, None, None, status)
    }

    method Initialize(timeout: nat) returns (status: Status)
      requires Valid()
      modifies this
      ensures Valid() && filesystemOwned == old(filesystemOwned)
      ensures old(filesystemOwned) ==> status == Busy && trace == old(trace) && ready == old(ready)
      ensures !old(filesystemOwned) && timeout > TIMEOUT_MAX ==> status == Range && trace == old(trace) + [Done(Range)] && ready == old(ready)
      ensures !old(filesystemOwned) && timeout <= TIMEOUT_MAX ==> Attempted(old(trace), status)
    {
      status := Admission(false, false);
      if status == Ok {
        status := InitializeLocked(timeout);
      }
    }

    method InitializeLocked(timeout: nat) returns (status: Status)
      requires Valid()
      modifies this`tick, this`ready, this`ocr, this`blockAddressed, this`commandSinceInit, this`trace
      ensures Valid()
      ensures timeout > TIMEOUT_MAX ==> status == Range && trace == old(trace) + [Done(Range)] && ready == old(ready)
      ensures timeout <= TIMEOUT_MAX ==> Attempted(old(trace), status)
    {
      hide HighCapacity, Observed;
      if timeout > TIMEOUT_MAX {
        Finish(Range);
        return Range;
      }
      ready, ocr, blockAddressed, commandSinceInit := false, 0, false, false;
      var reply;
      status, reply := Initialization(true);
      if status == Ok {
        ocr := reply;
        blockAddressed := HighCapacity(reply);
        if !blockAddressed && isolated {
          status := Unsupported;
        } else if !blockAddressed {
          var ignored;
          status, ignored := Issue(BLOCK_LENGTH, BLOCK_SIZE, None);
          commandSinceInit := true;
        }
        ready := status == Ok;
      }
      Finish(status);
    }

    /** The file system takes the card for good, even when the card then fails to initialize. */
    method DiskClaim() returns (status: Status)
      requires Valid()
      modifies this
      ensures Valid() && filesystemOwned
      ensures if old(filesystemOwned) then status == Busy && trace == old(trace) && ready == old(ready) else Attempted(old(trace), status)
    {
      status := Admission(false, false);
      if status == Ok {
        filesystemOwned := true;
        status := InitializeLocked(20000);
      }
    }

    method Read(lba: u32, filesystem: bool) returns (status: Status, block: Block)
      requires Valid()
      modifies this`tick, this`ready, this`commandSinceInit, this`trace
      ensures Valid() && old(trace) <= trace
      ensures old(Admission(true, filesystem)) != Ok ==> status == old(Admission(true, filesystem)) && trace == old(trace)
      ensures status == Ok ==>
                && Reach(lba).Some? && exists i :: |old(trace)| <= i < |trace| && Returned(trace[i], Reach(lba).value, block)
    {
      block := Noise(1, BLOCK_SIZE);
      status := Admission(true, filesystem);
      if status == Ok {
        status, block := Transfer(lba, None);
        ghost var i := |trace| - 1;
        assert status == Ok ==> Returned(trace[i], Reach(lba).value, block);
        Finish(status);
        assert status == Ok ==> Returned(trace[i], Reach(lba).value, block);
      }
    }

    /** A write counts only once the same 512 bytes have come back. */
    method WriteVerified(lba: u32, block: Block, filesystem: bool) returns (status: Status, mismatch: u32)
      requires Valid()
      modifies this`tick, this`ready, this`commandSinceInit, this`trace
      ensures Valid() && old(trace) <= trace
      ensures old(Admission(true, filesystem)) != Ok ==> status == old(Admission(true, filesystem)) && trace == old(trace)
      ensures status == Ok ==> Reach(lba).Some? && Verified(trace, |old(trace)|, Reach(lba).value, block)
    {
      mismatch := NO_MISMATCH;
      status := Admission(true, filesystem);
      if status != Ok {
        return;
      }
      var received: Block;
      status, received := Transfer(lba, Some(block));
      ghost var i := |trace| - 1;
      if status == Ok {
        status, received := Transfer(lba, None);
      }
      ghost var j := |trace| - 1;
      if status == Ok {
        status, mismatch := Compare(block, received);
      }
      assert status == Ok ==> Wrote(trace[i], Reach(lba).value, block) && Returned(trace[j], Reach(lba).value, block);
      Finish(status);
      assert status == Ok ==> Wrote(trace[i], Reach(lba).value, block) && Returned(trace[j], Reach(lba).value, block);
    }

    method Compare(expected: Block, received: Block) returns (status: Status, mismatch: u32)
      ensures if received == expected then status == Ok
              else status == Io && mismatch < BLOCK_SIZE && expected[mismatch] != received[mismatch]
                   && expected[..mismatch] == received[..mismatch]
    {
      mismatch, status := NO_MISMATCH, Ok;
      var i := 0;
      while i < BLOCK_SIZE
        invariant 0 <= i <= BLOCK_SIZE && expected[..i] == received[..i]
      {
        if expected[i] != received[i] {
          return Io, i;
        }
        i := i + 1;
      }
      assert expected[..i] == expected && received[..i] == received;
    }

    /** CMD13 and CMD16 on their own. */
    method SimpleCommand(code: u8) returns (status: Status)
      requires Valid() && (code == STATUS || code == BLOCK_LENGTH)
      modifies this`tick, this`ready, this`commandSinceInit, this`trace
      ensures Valid() && old(trace) <= trace
      ensures old(Admission(true, false)) != Ok ==> status == old(Admission(true, false)) && trace == old(trace)
      ensures status == Ok ==>
                exists i :: |old(trace)| <= i < |trace| && Answered(trace[i], code, if code == BLOCK_LENGTH then BLOCK_SIZE else 0)
    {
      status := Admission(true, false);
      if status != Ok {
        return;
      }
      status := PrepareCommand();
      if status == Ok {
        commandSinceInit := true;
        var ignored;
        status, ignored := Issue(code, if code == BLOCK_LENGTH then BLOCK_SIZE else 0, None);
      }
      ghost var i := |trace| - 1;
      assert status == Ok ==> Answered(trace[i], code, if code == BLOCK_LENGTH then BLOCK_SIZE else 0);
      Finish(status);
      assert status == Ok ==> Answered(trace[i], code, if code == BLOCK_LENGTH then BLOCK_SIZE else 0);
    }

    /** Writes every sector of the range before it reads back any of them. */
    method Test(lba: u32, count: u32, seed: u32) returns (status: Status, ghost written: seq<Call>, ghost returned: seq<Call>)
      requires Valid()
      modifies this`tick, this`ready, this`commandSinceInit, this`trace
      ensures Valid() && old(trace) <= trace
      ensures old(Admission(true, false)) != Ok ==> status == old(Admission(true, false)) && trace == old(trace)
      ensures status == Ok ==>
                && 1 <= count <= 8 && trace == old(trace) + written + returned + [Done(Ok)]
                && forall k: nat :: k < count ==>
                     (SectorWritten(written, blockAddressed, lba, seed, k) && SectorReturned(returned, blockAddressed, lba, seed, k))
    {
      written, returned := [], [];
      status := Admission(true, false);
      if status != Ok {
        return;
      }
      if count == 0 || count > 8 || lba > 0xFFFF_FFFF - (count - 1) || Reach(lba + count - 1).None? {
        Finish(Range);
        return Range, written, returned;
      }
      status, written := WriteAll(lba, count, seed);
      if status == Ok {
        status, returned := ReadAll(lba, count, seed);
      }
      Finish(status);
    }

    method WriteAll(lba: u32, count: u32, seed: u32) returns (status: Status, ghost calls: seq<Call>)
      requires Valid() && ready && 1 <= count <= 8 && lba + count - 1 <= 0xFFFF_FFFF
      modifies this`tick, this`commandSinceInit, this`trace
      ensures Valid() && trace == old(trace) + calls
      ensures status == Ok ==> forall k: nat :: k < count ==> SectorWritten(calls, blockAddressed, lba, seed, k)
    {
      hide Pattern, Observed, SectorWritten;
      status, calls := Ok, [];
      var n: nat := 0;
      while n < count
        invariant 0 <= n <= count && Valid() && ready && trace == old(trace) + calls && status == Ok
        invariant forall k: nat :: k < n ==> SectorWritten(calls, blockAddressed, lba, seed, k)
      {
        ghost var more;
        status, more := WriteSector(lba, n, seed);
        if status != Ok {
          calls := calls + more;
          return;
        }
        forall k: nat | k < n { SectorsKept(calls, more, blockAddressed, lba, seed, k); }
        SectorsJoin(calls, more, blockAddressed, lba, seed, n);
        calls := calls + more;
        n := n + 1;
      }
    }

    method WriteSector(lba: u32, k: nat, seed: u32) returns (status: Status, ghost calls: seq<Call>)
      requires Valid() && ready && lba + k <= 0xFFFF_FFFF
      modifies this`tick, this`commandSinceInit, this`trace
      ensures Valid() && trace == old(trace) + calls
      ensures status == Ok ==> SectorWritten(calls, blockAddressed, lba, seed, k)
    {
      hide Pattern, Observed;
      var ignored;
      status, ignored := Transfer(lba + k, Some(Pattern(lba + k, seed)));
      calls := trace[|old(trace)|..];
      assert status == Ok ==> Wrote(calls[|calls| - 1], Argument(blockAddressed, lba + k).value, Pattern(lba + k, seed));
    }

    method ReadAll(lba: u32, count: u32, seed: u32) returns (status: Status, ghost calls: seq<Call>)
      requires Valid() && ready && 1 <= count <= 8 && lba + count - 1 <= 0xFFFF_FFFF
      modifies this`tick, this`commandSinceInit, this`trace
      ensures Valid() && trace == old(trace) + calls
      ensures status == Ok ==> forall k: nat :: k < count ==> SectorReturned(calls, blockAddressed, lba, seed, k)
    {
      hide Pattern, Observed, SectorReturned;
      status, calls := Ok, [];
      var n: nat := 0;
      while n < count
        invariant 0 <= n <= count && Valid() && ready && trace == old(trace) + calls && status == Ok
        invariant forall k: nat :: k < n ==> SectorReturned(calls, blockAddressed, lba, seed, k)
      {
        ghost var more;
        status, more := ReadSector(lba, n, seed);
        if status != Ok {
          calls := calls + more;
          return;
        }
        forall k: nat | k < n { SectorsKept(calls, more, blockAddressed, lba, seed, k); }
        SectorsJoin(calls, more, blockAddressed, lba, seed, n);
        calls := calls + more;
        n := n + 1;
      }
    }

    method ReadSector(lba: u32, k: nat, seed: u32) returns (status: Status, ghost calls: seq<Call>)
      requires Valid() && ready && lba + k <= 0xFFFF_FFFF
      modifies this`tick, this`commandSinceInit, this`trace
      ensures Valid() && trace == old(trace) + calls
      ensures status == Ok ==> SectorReturned(calls, blockAddressed, lba, seed, k)
    {
      hide Pattern, Observed;
      var received;
      status, received := Transfer(lba + k, None);
      calls := trace[|old(trace)|..];
      if status == Ok {
        var mismatch;
        status, mismatch := Compare(Pattern(lba + k, seed), received);
        assert Returned(calls[|calls| - 1], Argument(blockAddressed, lba + k).value, received);
      }
    }
  }

  lemma SectorsJoin(calls: seq<Call>, more: seq<Call>, addressed: bool, lba: u32, seed: u32, k: nat)
    ensures SectorWritten(more, addressed, lba, seed, k) ==> SectorWritten(calls + more, addressed, lba, seed, k)
    ensures SectorReturned(more, addressed, lba, seed, k) ==> SectorReturned(calls + more, addressed, lba, seed, k)
  {
    hide Pattern;
    assert forall i :: 0 <= i < |more| ==> (calls + more)[|calls| + i] == more[i];
  }
}
