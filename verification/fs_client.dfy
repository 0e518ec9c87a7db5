/**
 The client of the FS service: checking block answers, downloading a whole stream, and reading
 directory records out of it.
 */
module FsClient {
  import opened Words
  import opened FsReader
  import opened FsSession
  import opened FsService

  datatype Block = Block(data: Bytes, eof: bool)

  /** A READ answer as the client checks it. */
  function DecodeRead(body: Bytes, handle: u32, n: u32, blockSize: nat): Option<Block> {
    if |body| < READ_HEADER then None
    else
      var flags, length := body[8], FromBe(body[10..12]);
      if FromBe(body[..4]) != handle || FromBe(body[4..8]) != n || body[9] != 0 || flags > 1
         || length != |body| - READ_HEADER || length > blockSize || (length == 0 && flags == 0) then None
      else Some(Block(body[READ_HEADER..], flags == 1))
  }

  /** Every answer of the service passes the client's checks and says what the service meant. */
  lemma DecodeOfReadBody(o: Opened, handle: u32, n: u32, accepted: nat)
    ensures var r := DecodeRead(ReadBody(o, handle, n), handle, n, accepted);
      && (accepted >= o.BlockSize() ==> r.Some?)
      && (r.Some? ==> r == Some(Block(BlockAt(o.stream, o.BlockSize(), n), EndsAt(o.kind, o.stream, o.BlockSize(), n))))
  {
    hide Be, FromBe, Limit;
    Limits();
    var b, block := ReadBody(o, handle, n), BlockAt(o.stream, o.BlockSize(), n);
    FromBeOfHeld(4, handle);
    FromBeOfHeld(4, n);
    FromBeOfHeld(2, |block|);
    assert b[..4] == Be(4, handle) && b[4..8] == Be(4, n) && b[10..12] == Be(2, |block|) && b[READ_HEADER..] == block;
  }

  /** What a caller asks of the service between two reads. */
  datatype Ask = Ask(opcode: Opcode, body: Bytes, now: u32)

  function ReadRequest(handle: u32, n: u32): Bytes { Be(4, handle) + Be(4, n) }

  lemma ReadRequestServed(record: map<u32, Opened>, handle: u32, n: u32, reply: Bytes)
    ensures |ReadRequest(handle, n)| == 8
    ensures Served(record, ReadRequest(handle, n), reply) ==> handle in record && reply == ReadBody(record[handle], handle, n)
  {
    hide Be, FromBe, Limit, ReadBody;
    Limits();
    FromBeOfHeld(4, handle);
    FromBeOfHeld(4, n);
    var b := ReadRequest(handle, n);
    assert b[..4] == Be(4, handle) && b[4..] == Be(4, n);
  }

  /** Any requests, whatever is answered; the handles on record stay on record. */
  method AskAll(s: Session, asks: seq<Ask>, out: array<u8>)
    requires s.Valid() && out !in s.Footprint()
    modifies s.Footprint(), out
    ensures s.Valid() && out !in s.Footprint() && fresh(s.Footprint() - old(s.Footprint())) && Grows(old(s.record), s.record)
  {
    hide Session.Valid;
    var i := 0;
    while i < |asks|
      invariant 0 <= i <= |asks| && s.Valid() && out !in s.Footprint() && fresh(s.Footprint() - old(s.Footprint()))
      invariant Grows(old(s.record), s.record)
    {
      var _, _ := s.Request(asks[i].opcode, asks[i].body, asks[i].now, out, out.Length);
      i := i + 1;
    }
  }

  /** Asking for the same block twice, with anything at all in between, never gives two different answers. */
  method Reread(s: Session, handle: u32, n: u32, between: seq<Ask>, now: u32, later: u32, out: array<u8>)
    returns (before: Option<Bytes>, after: Option<Bytes>)
    requires s.Valid() && out !in s.Footprint()
    modifies s.Footprint(), out
    ensures s.Valid()
    ensures before.Some? && after.Some? ==> before == after
  {
    hide Session.Valid, ReadBody, Served;
    ReadRequestServed(s.record, handle, n, []);
    var capacity := out.Length;
    var status, size := s.Request(READ, ReadRequest(handle, n), now, out, capacity);
    before, after := None, None;
    if status == OK && size <= capacity {
      before := Some(out[..size]);
      ReadRequestServed(s.record, handle, n, out[..size]);
    }
    AskAll(s, between, out);
    status, size := s.Request(READ, ReadRequest(handle, n), later, out, capacity);
    if status == OK && size <= capacity {
      after := Some(out[..size]);
      ReadRequestServed(s.record, handle, n, out[..size]);
    }
  }

  const UNKNOWN_SIZE := U64_LIMIT - 1

  /** Block `n` is due to a client that asks for it now. */
  ghost predicate Due(s: Session, handle: u32, n: u32, now: u32, capacity: nat)
    reads s, s.first, s.second
  {
    handle in s.record && s.Awake(handle, now) && s.ReadPromise(handle, n, capacity) == Some(OK)
  }

  lemma DueAnswered(s: Session, handle: u32, n: u32, now: u32, capacity: nat)
    requires Due(s, handle, n, now, capacity)
    ensures s.AwakeFor(ReadRequest(handle, n), now) && s.Promise(READ, ReadRequest(handle, n), capacity) == Some(OK)
  {
    hide Be, FromBe, Limit, Session.ReadPromise, Session.Awake;
    Limits();
    FromBeOfHeld(4, handle);
    FromBeOfHeld(4, n);
    var b := ReadRequest(handle, n);
    assert b[..4] == Be(4, handle) && b[4..] == Be(4, n);
  }

  lemma AdvancedIs(s: Session, handle: u32, n: u32, now: u32)
    ensures s.Advanced(ReadRequest(handle, n), now) ==> s.Current(handle, n, now)
  {
    hide Be, FromBe, Limit, Session.Current;
    Limits();
    FromBeOfHeld(4, handle);
    FromBeOfHeld(4, n);
    var b := ReadRequest(handle, n);
    assert b[..4] == Be(4, handle) && b[4..] == Be(4, n);
  }

  /** Fetches and checks one block. */
  method FetchBlock(s: Session, handle: u32, n: u32, accepted: nat, now: u32, out: array<u8>) returns (block: Option<Block>)
    requires s.Valid() && out !in s.Footprint()
    modifies s.Footprint(), out
    ensures s.Valid() && fresh(s.Footprint() - old(s.Footprint())) && Grows(old(s.record), s.record)
    ensures block.Some? ==>
              && handle in s.record && s.Current(handle, n, now)
              && var o := s.record[handle];
                 block.value == Block(BlockAt(o.stream, o.BlockSize(), n), EndsAt(o.kind, o.stream, o.BlockSize(), n))
    ensures old(Due(s, handle, n, now, out.Length)) && accepted >= old(s.record)[handle].BlockSize() ==> block.Some?
  {
    hide Session.Valid, ReadBody, Served, BlockAt, EndsAt, DecodeRead, Opened.BlockSize, Due, Session.Current, Session.Advanced, Session.AwakeFor,
      Session.Promise, ReadRequest;
    ReadRequestServed(s.record, handle, n, []);
    if Due(s, handle, n, now, out.Length) {
      DueAnswered(s, handle, n, now, out.Length);
      DueRecorded(s, handle, n, now, out.Length);
    }
    var status, size := s.Request(READ, ReadRequest(handle, n), now, out, out.Length);
    if status != OK {
      return None;
    }
    ReadRequestServed(s.record, handle, n, out[..size]);
    AdvancedIs(s, handle, n, now);
    DecodeOfReadBody(s.record[handle], handle, n, accepted);
    block := DecodeRead(out[..size], handle, n, accepted);
  }

  lemma DueRecorded(s: Session, handle: u32, n: u32, now: u32, capacity: nat)
    requires Due(s, handle, n, now, capacity)
    ensures handle in s.record
  {
  }

  /** The block behind one that was not the last is due, if the client asks soon enough. */
  lemma NextDue(s: Session, handle: u32, n: u32, now: u32, later: u32, capacity: nat)
    requires s.Current(handle, n, now) && n < U32_LIMIT - 1 && (later - now) % U32_LIMIT < IDLE_MS
    requires var o := s.record[handle];
      !EndsAt(o.kind, o.stream, o.BlockSize(), n) && o.bar.Ok? && o.BlockSize() + READ_HEADER <= capacity
    requires s.backend.Faultless()
    ensures Due(s, handle, n + 1, later, capacity)
  {
    hide EndsAt;
  }

  predicate Ends(o: Opened, n: nat) { EndsAt(o.kind, o.stream, o.BlockSize(), n) }

  /** A stream that can be walked to its end, asked for by a client that takes its blocks, in room enough, without leaving
      half a minute between two of them; block `n` is the next one. */
  ghost predicate Planned(o: Opened, n: nat, accepted: nat, total: nat, clock: nat -> u32, capacity: nat) {
    && o.bar.Ok? && o.BlockSize() <= accepted && o.BlockSize() + READ_HEADER <= capacity && total == o.Total()
    && (forall k: nat :: (clock(k + 1) - clock(k)) % U32_LIMIT < IDLE_MS)
    && (exists k: nat :: k < U32_LIMIT && Ends(o, k)) && forall k: nat :: k < n ==> !Ends(o, k)
  }

  /** A download over a disk that does not fail, of a stream whose first block is due. */
  ghost predicate Smooth(s: Session, handle: u32, accepted: nat, total: nat, clock: nat -> u32, capacity: nat)
    reads s, s.first, s.second
  {
    && Due(s, handle, 0, clock(0), capacity) && handle in s.record && s.backend.Faultless()
    && Planned(s.record[handle], 0, accepted, total, clock, capacity)
  }

  /** A block that was not the last has been served, so the next one is due. */
  lemma GoesOn(s: Session, o: Opened, handle: u32, n: u32, accepted: nat, total: nat, clock: nat -> u32, capacity: nat)
    requires s.Current(handle, n, clock(n)) && s.record[handle] == o && !Ends(o, n) && s.backend.Faultless()
    requires Planned(o, n, accepted, total, clock, capacity)
    ensures Planned(o, n + 1, accepted, total, clock, capacity)
    ensures n + 1 < U32_LIMIT ==> Due(s, handle, n + 1, clock(n + 1), capacity)
  {
    hide Due, EndsAt;
    if n + 1 < U32_LIMIT {
      NextDue(s, handle, n, clock(n), clock(n + 1), capacity);
    }
  }

  lemma NotBeyond(o: Opened, accepted: nat, total: nat, clock: nat -> u32, capacity: nat)
    ensures !Planned(o, U32_LIMIT, accepted, total, clock, capacity)
  {
    hide Ends;
  }

  lemma PlanFits(o: Opened, n: nat, accepted: nat, total: nat, clock: nat -> u32, capacity: nat)
    requires Planned(o, n, accepted, total, clock, capacity)
    ensures o.BlockSize() <= accepted && total == o.Total()
  {
    hide Ends;
  }

  /** What the announced size allows after a block. */
  predicate SizeFits(total: nat, received: nat, eof: bool) {
    total == UNKNOWN_SIZE || (received <= total && (eof ==> received == total))
  }

  /** What the blocks so far come to never exceeds the stream, and is the stream at its end. */
  lemma SizeHolds(o: Opened, n: nat)
    ensures |Blocks(o.stream, o.BlockSize(), n + 1)| <= |o.stream|
    ensures EndsAt(o.kind, o.stream, o.BlockSize(), n) ==> Blocks(o.stream, o.BlockSize(), n + 1) == o.stream
    ensures SizeFits(o.Total(), |Blocks(o.stream, o.BlockSize(), n + 1)|, EndsAt(o.kind, o.stream, o.BlockSize(), n))
  {
    hide Blocks, EndsAt, Opened.BlockSize;
    BlocksAreStream(o.stream, o.BlockSize(), n + 1);
    if EndsAt(o.kind, o.stream, o.BlockSize(), n) {
      EndIsWhole(o.kind, o.stream, o.BlockSize(), n);
    }
  }

  /** Downloads a stream block by block until the one marked as the last: exactly the stream, or nothing. */
  method Download(s: Session, handle: u32, accepted: nat, total: nat, clock: nat -> u32, out: array<u8>) returns (data: Option<Bytes>)
    requires s.Valid() && out !in s.Footprint()
    modifies s.Footprint(), out
    ensures s.Valid()
    ensures data.Some? ==> handle in s.record && data.value == s.record[handle].stream
    ensures old(Smooth(s, handle, accepted, total, clock, out.Length)) ==> data == Some(old(s.record)[handle].stream)
  {
    hide Session.Valid, Blocks, EndsAt, BlockAt, Session.Current, Due, Planned, Opened.BlockSize, Opened.Total, SizeFits;
    ghost var smooth, capacity, before := Smooth(s, handle, accepted, total, clock, out.Length), out.Length, s.record;
    var received: Bytes, n := [], 0;
    while n < U32_LIMIT
      invariant 0 <= n <= U32_LIMIT && s.Valid() && out !in s.Footprint() && fresh(s.Footprint() - old(s.Footprint()))
      invariant n == 0 ==> received == []
      invariant n > 0 ==> handle in s.record && received == Blocks(s.record[handle].stream, s.record[handle].BlockSize(), n)
      invariant Grows(before, s.record)
      invariant smooth ==> handle in before && s.backend.Faultless() && Planned(before[handle], n, accepted, total, clock, capacity)
      invariant smooth && n < U32_LIMIT ==> Due(s, handle, n, clock(n), capacity)
    {
      if smooth {
        PlanFits(before[handle], n, accepted, total, clock, capacity);
      }
      var block := FetchBlock(s, handle, n, accepted, clock(n), out);
      if block.None? {
        return None;
      }
      ghost var o := s.record[handle];
      BlocksNext(o.stream, o.BlockSize(), n);
      SizeHolds(o, n);
      received := received + block.value.data;
      if !SizeFits(total, |received|, block.value.eof) {
        return None;
      }
      if block.value.eof {
        return Some(received);
      }
      if smooth {
        GoesOn(s, o, handle, n, accepted, total, clock, capacity);
      }
      n := n + 1;
    }
    if smooth {
      NotBeyond(before[handle], accepted, total, clock, capacity);
    }
    data := None;
  }

  lemma BlocksNext(stream: Bytes, size: nat, n: nat)
    ensures Blocks(stream, size, 0) == []
    ensures Blocks(stream, size, n + 1) == Blocks(stream, size, n) + BlockAt(stream, size, n)
  {
  }
}
