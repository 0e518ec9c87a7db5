/**
 The event journal: bounded rings that forget, cursors that account for everything forgotten.
 */
module Journal {
  import opened Words

  const CAPACITY := 256
  const BATCH := 32
  const BUSES := 2
  const HISTORY: u64 := U64_LIMIT - 1

  const EVENTS := 0
  const TELEMETRY := 1

  datatype Event = Event(timeUs: u64, type_: u16, status: u16, source: u8, bus: u8, operation: u8, flags: u8,
                         arg0: u32, arg1: u32, arg2: u32)

  const NO_EVENT := Event(0, 0, 0, 0, 0, 0, 0, 0, 0, 0)

  const REG_ATTEMPT := 1
  const FAULT := 5
  const CAPTURE_WRITE := 0x101
  const SLAVE_REPLY_PREPARED := 0x106

  datatype Record = Record(sequence: nat, event: Event)

  datatype Batch = Batch(next: nat, head: nat, lost: nat, reset: bool, records: seq<Record>)

  predicate Matches(e: Event, address: int) { address < 0 || e.arg0 == address }

  // ----- Reading the whole history

  /** The oldest event a ring still holds. */
  function Oldest(head: nat): nat { if head > CAPACITY then head - CAPACITY else 0 }

  /** Where a scan from `at` stops, with the matching records it collects, at most `room` of them. */
  function Scan(log: seq<Event>, address: int, at: nat, room: nat): (r: (nat, seq<Record>))
    requires at <= |log|
    ensures at <= r.0 <= |log| && |r.1| <= room && |r.1| <= r.0 - at
    ensures r.0 == |log| || |r.1| == room
    decreases |log| - at
  {
    if at == |log| || room == 0 then (at, [])
    else if Matches(log[at], address) then
      var (next, rs) := Scan(log, address, at + 1, room - 1);
      (next, [Record(at + 1, log[at])] + rs)
    else Scan(log, address, at + 1, room)
  }

  /** The position a cursor stands for, with what was overwritten before it could be read. */
  function Resume(head: nat, after: nat): (r: (nat, nat, bool))
    ensures r.0 <= head
  {
    var first := Oldest(head);
    if after == HISTORY then (first, 0, false)
    else if after > head then (first, 0, true)
    else if after < first then (first, first - after, false)
    else (after, 0, false)
  }

  function ReadLog(log: seq<Event>, address: int, after: nat): Batch {
    var (at, lost, reset) := Resume(|log|, after);
    var (next, records) := Scan(log, address, at, BATCH);
    Batch(next, |log|, lost, reset, records)
  }

  // ----- What becomes of each event

  datatype Fate = Overwritten | Filtered | Returned(record: Record)

  function FatesOf(log: seq<Event>, address: int, from: nat, to: nat): (f: seq<Fate>)
    requires from <= to <= |log|
    ensures |f| == to - from
    decreases |log| - from
  {
    if from == to then []
    else
      [if Matches(log[from], address) then Returned(Record(from + 1, log[from])) else Filtered]
      + FatesOf(log, address, from + 1, to)
  }

  function Gone(n: nat): (f: seq<Fate>)
    ensures |f| == n && forall i :: 0 <= i < n ==> f[i] == Overwritten
  {
    if n == 0 then [] else [Overwritten] + Gone(n - 1)
  }

  function RecordsIn(fates: seq<Fate>): seq<Record> {
    if fates == [] then []
    else (if fates[0].Returned? then [fates[0].record] else []) + RecordsIn(fates[1..])
  }

  lemma {:induction false} RecordsConcat(a: seq<Fate>, b: seq<Fate>)
    ensures RecordsIn(a + b) == RecordsIn(a) + RecordsIn(b)
  {
    hide RecordsIn;
    if a == [] {
      NoRecords();
      assert a + b == b;
    } else {
      assert a == [a[0]] + a[1..] && a + b == [a[0]] + (a[1..] + b);
      RecordsAhead(a[0], a[1..]);
      RecordsAhead(a[0], a[1..] + b);
      RecordsConcat(a[1..], b);
    }
  }

  lemma NoRecords()
    ensures RecordsIn([]) == []
  {
  }

  lemma RecordsAhead(f: Fate, rest: seq<Fate>)
    ensures RecordsIn([f] + rest) == (if f.Returned? then [f.record] else []) + RecordsIn(rest)
  {
    assert ([f] + rest)[1..] == rest;
  }

  lemma {:induction false} NoRecordsGone(n: nat)
    ensures RecordsIn(Gone(n)) == []
  {
    if n > 0 {
      NoRecordsGone(n - 1);
    }
  }

  lemma {:induction false} ScanFates(log: seq<Event>, address: int, at: nat, room: nat)
    requires at <= |log|
    ensures var (next, records) := Scan(log, address, at, room); RecordsIn(FatesOf(log, address, at, next)) == records
    decreases |log| - at
  {
    if at < |log| && room > 0 {
      ScanFates(log, address, at + 1, if Matches(log[at], address) then room - 1 else room);
    }
  }

  /** The fates of the events one read moves past: first those overwritten, then those scanned. */
  function ReadFates(log: seq<Event>, address: int, after: nat): seq<Fate>
    requires after <= |log| < HISTORY
  {
    var b := ReadLog(log, address, after);
    Gone(b.lost) + FatesOf(log, address, after + b.lost, b.next)
  }

  /** One read accounts for every event it moves past, and returns exactly the matching ones it scanned. */
  lemma ReadAccounts(log: seq<Event>, address: int, after: nat)
    requires after <= |log| < HISTORY
    ensures var b := ReadLog(log, address, after);
      && !b.reset && after + b.lost <= b.next <= |log|
      && |ReadFates(log, address, after)| == b.next - after
      && RecordsIn(ReadFates(log, address, after)) == b.records
      && (b.next == |log| || |b.records| == BATCH)
  {
    var b := ReadLog(log, address, after);
    var (at, lost, reset) := Resume(|log|, after);
    ScanFates(log, address, at, BATCH);
    NoRecordsGone(lost);
    RecordsConcat(Gone(lost), FatesOf(log, address, at, b.next));
  }

  // ----- A chain of reads while the journal grows

  /** The logs seen by successive reads: each extends the one before. */
  ghost predicate Growing(logs: seq<seq<Event>>) {
    forall i, j :: 0 <= i < j < |logs| ==> logs[i] <= logs[j]
  }

  function Chain(logs: seq<seq<Event>>, address: int, cursor: nat): (seq<Record>, nat) {
    if logs == [] then ([], cursor)
    else
      var b := ReadLog(logs[0], address, cursor);
      var (rest, last) := Chain(logs[1..], address, b.next);
      (b.records + rest, last)
  }

  /** A fate that tells the truth about the event at position `at` of the history. */
  predicate Truthful(f: Fate, log: seq<Event>, address: int, at: nat) {
    && at < |log|
    && match f
       case Overwritten => true
       case Filtered => !Matches(log[at], address)
       case Returned(r) => r == Record(at + 1, log[at]) && Matches(log[at], address)
  }

  ghost predicate Accounts(fates: seq<Fate>, log: seq<Event>, address: int, from: nat, to: nat) {
    && from <= to <= |log| && |fates| == to - from
    && forall i :: 0 <= i < |fates| ==> Truthful(fates[i], log, address, from + i)
  }

  lemma {:induction false} FatesTruthful(log: seq<Event>, all: seq<Event>, address: int, from: nat, to: nat)
    requires from <= to <= |log| && log <= all
    ensures Accounts(FatesOf(log, address, from, to), all, address, from, to)
    decreases |log| - from
  {
    if from < to {
      FatesTruthful(log, all, address, from + 1, to);
    }
  }

  lemma AccountsJoin(a: seq<Fate>, b: seq<Fate>, log: seq<Event>, address: int, from: nat, mid: nat, to: nat)
    requires Accounts(a, log, address, from, mid) && Accounts(b, log, address, mid, to)
    ensures Accounts(a + b, log, address, from, to)
  {
  }

  lemma GoneTruthful(n: nat, log: seq<Event>, address: int, from: nat)
    requires from + n <= |log|
    ensures Accounts(Gone(n), log, address, from, from + n)
  {
  }

  /** Through any interleaving of publishing and reading, every event between the first and the last cursor is
      returned exactly once, skipped by the filter, or counted as lost; nothing else is returned. */
  lemma {:induction false} ChainConserves(logs: seq<seq<Event>>, all: seq<Event>, address: int, cursor: nat) returns (fates: seq<Fate>)
    requires Growing(logs) && (forall i :: 0 <= i < |logs| ==> logs[i] <= all) && |all| < HISTORY
    requires cursor <= (if logs == [] then |all| else |logs[0]|)
    ensures var (records, last) := Chain(logs, address, cursor);
      Accounts(fates, all, address, cursor, last) && RecordsIn(fates) == records
    decreases |logs|
  {
    hide RecordsIn, Gone, FatesOf, Truthful, ReadLog;
    if logs == [] {
      NoRecords();
      fates := [];
    } else {
      var b := ReadLog(logs[0], address, cursor);
      ReadAccounts(logs[0], address, cursor);
      assert |logs| > 1 ==> logs[0] <= logs[1];
      forall i, j | 0 <= i < j < |logs| - 1 ensures logs[1..][i] <= logs[1..][j] { assert logs[i + 1] <= logs[j + 1]; }
      var rest := ChainConserves(logs[1..], all, address, b.next);
      var mine := ReadFates(logs[0], address, cursor);
      FatesTruthful(logs[0], all, address, cursor + b.lost, b.next);
      GoneTruthful(b.lost, all, address, cursor);
      AccountsJoin(Gone(b.lost), FatesOf(logs[0], address, cursor + b.lost, b.next), all, address, cursor, cursor + b.lost, b.next);
      fates := mine + rest;
      AccountsJoin(mine, rest, all, address, cursor, b.next, Chain(logs[1..], address, b.next).1);
      RecordsConcat(mine, rest);
    }
  }

  // ----- The rings

  class Ring {
    var head: nat
    const entries: array<Event>
    ghost var log: seq<Event>

    ghost predicate Valid()
      reads this, entries
    {
      && entries.Length == CAPACITY && head == |log|
      && forall i :: Oldest(|log|) <= i < |log| ==> entries[i % CAPACITY] == log[i]
    }

    constructor ()
      ensures Valid() && log == [] && fresh(entries)
    {
      entries := new Event[CAPACITY](_ => NO_EVENT);
      head, log := 0, [];
    }

    method Append(e: Event)
      requires Valid()
      modifies this`head, this`log, entries
      ensures Valid() && log == old(log) + [e]
    {
      RingSlots(head);
      entries[head % CAPACITY] := e;
      head, log := head + 1, log + [e];
    }

    method Read(address: int, after: u64) returns (out: Batch)
      requires Valid()
      ensures out == ReadLog(log, address, after)
    {
      var first := if head > CAPACITY then head - CAPACITY else 0;
      var at, lost, reset := after, 0, false;
      if at == HISTORY {
        at := first;
      } else if at > head {
        at, reset := first, true;
      }
      if at < first {
        lost, at := first - at, first;
      }
      var next, records := Collect(address, at);
      out := Batch(next, head, lost, reset, records);
    }

    method Collect(address: int, from: nat) returns (at: nat, records: seq<Record>)
      requires Valid() && Oldest(head) <= from <= head
      ensures (at, records) == Scan(log, address, from, BATCH)
    {
      hide Scan;
      at, records := from, [];
      ghost var whole := Scan(log, address, from, BATCH);
      assert [] + whole.1 == whole.1;
      while at < head && |records| < BATCH
        invariant from <= at <= head && |records| <= BATCH
        invariant whole.0 == Scan(log, address, at, BATCH - |records|).0
        invariant whole.1 == records + Scan(log, address, at, BATCH - |records|).1
      {
        var e := entries[at % CAPACITY];
        assert e == log[at];
        ScanStep(log, address, at, BATCH - |records|, records);
        at := at + 1;
        if address < 0 || e.arg0 == address {
          records := records + [Record(at, e)];
        }
      }
      ScanOver(log, address, at, BATCH - |records|);
      assert records + [] == records;
    }
  }

  lemma ScanStep(log: seq<Event>, address: int, at: nat, room: nat, records: seq<Record>)
    requires at < |log| && room > 0
    ensures var whole := Scan(log, address, at, room);
      if Matches(log[at], address) then
        && whole.0 == Scan(log, address, at + 1, room - 1).0
        && records + whole.1 == records + [Record(at + 1, log[at])] + Scan(log, address, at + 1, room - 1).1
      else whole == Scan(log, address, at + 1, room)
  {
  }

  lemma ScanOver(log: seq<Event>, address: int, at: nat, room: nat)
    requires at <= |log| && (at == |log| || room == 0)
    ensures Scan(log, address, at, room) == (at, [])
  {
  }

  predicate IsTelemetry(e: Event) { CAPTURE_WRITE <= e.type_ <= SLAVE_REPLY_PREPARED }

  /** What the journal keeps, and where; anything else is dropped. */
  predicate Kept(e: Event) { e.bus < BUSES && (IsTelemetry(e) || REG_ATTEMPT <= e.type_ <= FAULT) }

  function RingOf(e: Event): nat { e.bus * 2 + if IsTelemetry(e) then TELEMETRY else EVENTS }

  class EventJournal {
    const rings: seq<Ring>

    ghost predicate Valid()
      reads this, rings, set r | r in rings :: r.entries
    {
      && |rings| == BUSES * 2 && (forall i :: 0 <= i < |rings| ==> rings[i].Valid())
      && (forall i, j :: 0 <= i < j < |rings| ==> rings[i] != rings[j] && rings[i].entries != rings[j].entries)
    }

    constructor ()
      ensures Valid() && forall i :: 0 <= i < |rings| ==> fresh(rings[i]) && fresh(rings[i].entries) && rings[i].log == []
    {
      var a := new Ring();
      var b := new Ring();
      var c := new Ring();
      var d := new Ring();
      rings := [a, b, c, d];
    }

    /** An event goes to the ring of its bus and channel and to no other. */
    method Publish(e: Event)
      requires Valid()
      modifies rings, set r | r in rings :: r.entries
      ensures Valid()
      ensures forall i :: 0 <= i < |rings| ==>
                rings[i].log == old(rings[i].log) + if Kept(e) && i == RingOf(e) then [e] else []
    {
      if e.bus >= BUSES || (!IsTelemetry(e) && (e.type_ < REG_ATTEMPT || e.type_ > FAULT)) {
        return;
      }
      rings[RingOf(e)].Append(e);
    }

    method Read(bus: nat, channel: nat, address: int, after: u64) returns (out: Batch)
      requires Valid()
      ensures out == if bus < BUSES && channel < 2 then ReadLog(rings[bus * 2 + channel].log, address, after)
                     else Batch(0, 0, 0, false, [])
    {
      if bus >= BUSES || channel >= 2 {
        return Batch(0, 0, 0, false, []);
      }
      out := rings[bus * 2 + channel].Read(address, after);
    }
  }

  /** Within one window of the ring no two positions share a slot. */
  lemma RingSlots(n: nat)
    ensures forall i :: 0 <= i < n && n - i < CAPACITY ==> i % CAPACITY != n % CAPACITY
  {
  }
}
