/**
 One connection's CACHE session as a value: subscriptions, the frozen snapshot being paged,
 and the two things the firmware does with them, answering a request and emitting an event.
 */
module CacheSession {
  import opened Words
  import opened CacheModel
  import opened CacheWire

  const SUBSCRIPTIONS := 8
  const SNAPSHOT_MS := 30000
  const PAUSED: u8 := 0xFF

  const GET: u8 := 0x20
  const SUBSCRIBE: u8 := 0x21
  const UNSUBSCRIBE: u8 := 0x22

  const OK: u16 := 0
  const MALFORMED: u16 := 1
  const UNSUPPORTED: u16 := 2
  const BUSY: u16 := 4
  const RANGE: u16 := 6
  const NOT_FOUND: u16 := 0x200
  const STALE_SNAPSHOT: u16 := 0x201

  const MAX_ENTRY := NAME_MAX - 1 + 20

  datatype Sub = Sub(id: u16, handle: u16, generation: u32, revision: nat, cursor: nat, pending: bool, paused: u8)

  const FREE := Sub(0, 0, 0, 0, 0, false, 0)

  datatype Session = Session(snapshot: Device, subs: seq<Sub>, activity: u64, token: u32, lastToken: u32,
                             snapshotSub: u16, progress: nat, lastSub: u16, roundRobin: u16)

  const START := Session(NO_DEVICE, seq(SUBSCRIPTIONS, _ => FREE), 0, 0, 0, 0, 0, 0, 0)

  function SubIndex(subs: seq<Sub>, id: u16): (i: nat)
    ensures i <= |subs|
    ensures i < |subs| ==> id != 0 && subs[i].id == id
    ensures forall j :: 0 <= j < i ==> id == 0 || subs[j].id != id
  {
    if id == 0 then |subs|
    else if subs == [] || subs[0].id == id then 0
    else 1 + SubIndex(subs[1..], id)
  }

  function FreeIndex(subs: seq<Sub>): (i: nat)
    ensures i <= |subs|
    ensures i < |subs| ==> subs[i].id == 0
    ensures forall j :: 0 <= j < i ==> subs[j].id != 0
  {
    if subs == [] || subs[0].id == 0 then 0 else 1 + FreeIndex(subs[1..])
  }

  function HandleIndex(subs: seq<Sub>, handle: u16): (i: nat)
    ensures i <= |subs|
    ensures i < |subs| ==> subs[i].id != 0 && subs[i].handle == handle
    ensures forall j :: 0 <= j < i ==> subs[j].id == 0 || subs[j].handle != handle
  {
    if subs == [] || (subs[0].id != 0 && subs[0].handle == handle) then 0 else 1 + HandleIndex(subs[1..], handle)
  }

  /** Unsigned 64-bit subtraction of clock readings. */
  function Elapsed(now: u64, since: u64): u64 {
    (now - since) % U64_LIMIT
  }

  function Expire(s: Session, now: u64): Session {
    if s.token != 0 && Elapsed(now, s.activity) >= SNAPSHOT_MS then
      var i := SubIndex(s.subs, s.snapshotSub);
      var subs := if i < |s.subs| && s.subs[i].pending then s.subs[i := s.subs[i].(paused := EXPIRED)] else s.subs;
      s.(subs := subs, token := 0)
    else s
  }

  // ----- Requests

  datatype Command =
    | Refused(status: u16)
    | Drop(id: u16)
    | Continue(subsystem: Bytes, name: Bytes, token: u32, first: u16)
    | Start(subsystem: Bytes, name: Bytes, subscribe: bool)

  /** A length-prefixed name, with the bytes after it. */
  function ParseName(b: Bytes): Option<(Bytes, Bytes)> {
    if b == [] || b[0] == 0 || b[0] >= NAME_MAX || b[0] > |b| - 1 then None
    else
      var name := b[1..1 + b[0]];
      if NameValid(name) then Some((name, b[1 + b[0]..])) else None
  }

  function ParseRequest(opcode: u8, body: Bytes): Command {
    if opcode != GET && opcode != SUBSCRIBE && opcode != UNSUBSCRIBE then Refused(UNSUPPORTED)
    else if body == [] then Refused(MALFORMED)
    else if body[0] != VERSION then Refused(UNSUPPORTED)
    else if opcode == UNSUBSCRIBE then
      if |body| != 3 then Refused(MALFORMED) else (Limits(); Drop(FromBe(body[1..])))
    else
      match ParseName(body[1..])
      case None => Refused(MALFORMED)
      case Some((subsystem, rest)) =>
        match ParseName(rest)
        case None => Refused(MALFORMED)
        case Some((name, tail)) =>
          if opcode == SUBSCRIBE then (if tail == [] then Start(subsystem, name, true) else Refused(MALFORMED))
          else if |tail| != 6 then Refused(MALFORMED)
          else
            Limits();
            var token, first := FromBe(tail[..4]), FromBe(tail[4..]);
            if token != 0 then Continue(subsystem, name, token, first)
            else if first != 0 then Refused(MALFORMED)
            else Start(subsystem, name, false)
  }

  datatype Reply = Reply(status: u16, session: Session, page: Option<Page>)

  /** How many of `entries`, in order, fit in `room` bytes. */
  function FitCount(entries: seq<Entry>, room: nat): (n: nat)
    ensures n <= |entries|
  {
    if entries == [] || EntrySize(entries[0]) > room then 0
    else 1 + FitCount(entries[1..], room - EntrySize(entries[0]))
  }

  function PageOf(s: Session, first: nat, count: nat): Page
    requires first + count <= |s.snapshot.entries|
  {
    var v := s.snapshot;
    Page(s.snapshotSub, s.token, v.generation, v.revision, v.capturedMs, |v.entries|, first, v.presence,
         v.entries[first..first + count])
  }

  function ServePage(s: Session, first: nat, capacity: nat): Reply {
    var total := |s.snapshot.entries|;
    if first > total || capacity < PAGE_HEADER then Reply(RANGE, s, None)
    else
      var count := FitCount(s.snapshot.entries[first..], capacity - PAGE_HEADER);
      if count == 0 && first < total then Reply(RANGE, s, None)
      else
        var progress := if first == s.progress then first + count else s.progress;
        var i := SubIndex(s.subs, s.snapshotSub);
        var subs := if i < |s.subs| && progress == total then s.subs[i := s.subs[i].(pending := false)] else s.subs;
        Reply(OK, s.(progress := progress, subs := subs), Some(PageOf(s, first, count)))
  }

  function DropSub(s: Session, id: u16): Reply {
    var i := SubIndex(s.subs, id);
    if i == |s.subs| then Reply(NOT_FOUND, s, None)
    else
      var t := if s.snapshotSub == id then s.(snapshotSub := 0, token := 0) else s;
      Reply(OK, t.(subs := t.subs[i := FREE]), None)
  }

  function ContinueSnapshot(s: Session, subsystem: Bytes, name: Bytes, token: u32, first: u16, now: u64,
                            capacity: nat): Reply
  {
    if token != s.token || subsystem != s.snapshot.subsystem || name != s.snapshot.name then
      Reply(STALE_SNAPSHOT, s, None)
    else
      var r := ServePage(s, first, capacity);
      if r.status == OK then r.(session := r.session.(activity := now)) else r
  }

  /** The slot a subscription to `handle` takes: its old one, or the first free one. */
  function SlotFor(subs: seq<Sub>, handle: u16): (i: nat)
    ensures i <= |subs|
  {
    if HandleIndex(subs, handle) < |subs| then HandleIndex(subs, handle) else FreeIndex(subs)
  }

  function StartSnapshot(m: Model, s: Session, subsystem: Bytes, name: Bytes, subscribe: bool, now: u64,
                         capacity: nat): Reply
    requires |m.devices| == DEVICES_MAX
  {
    var p := SubIndex(s.subs, s.snapshotSub);
    if s.token != 0 && p < |s.subs| && s.subs[p].pending then Reply(BUSY, s, None)
    else if capacity < PAGE_HEADER + MAX_ENTRY then Reply(RANGE, s, None)
    else
      match Snapshot(m, subsystem, name, now)
      case None => Reply(NOT_FOUND, s, None)
      case Some(c) =>
        var t := s.(snapshot := c.device, token := 0, snapshotSub := 0, progress := 0);
        if !subscribe then Issue(t, now, capacity)
        else
          var i := SlotFor(t.subs, c.handle);
          if i == |t.subs| || (t.subs[i].id == 0 && t.lastSub == 0xFFFF) then Reply(BUSY, t, None)
          else
            var id := if t.subs[i].id == 0 then t.lastSub + 1 else t.subs[i].id;
            var sub := Sub(id, c.handle, c.device.generation, c.device.revision, c.cursor, true, 0);
            var last := if t.subs[i].id == 0 then id else t.lastSub;
            Issue(t.(subs := t.subs[i := sub], lastSub := last, snapshotSub := id), now, capacity)
  }

  /** The captured snapshot under a new token. */
  function Tokened(s: Session, now: u64): Session {
    var token := NextNonZero(s.lastToken);
    s.(lastToken := token, token := token, activity := now)
  }

  function Issue(s: Session, now: u64, capacity: nat): Reply {
    ServePage(Tokened(s, now), 0, capacity)
  }

  function Execute(m: Model, s: Session, command: Command, now: u64, capacity: nat): Reply
    requires |m.devices| == DEVICES_MAX
  {
    match command
    case Refused(status) => Reply(status, s, None)
    case Drop(id) => DropSub(s, id)
    case Continue(subsystem, name, token, first) => ContinueSnapshot(s, subsystem, name, token, first, now, capacity)
    case Start(subsystem, name, subscribe) => StartSnapshot(m, s, subsystem, name, subscribe, now, capacity)
  }

  function Request(m: Model, s: Session, opcode: u8, body: Bytes, now: u64, capacity: nat): Reply
    requires |m.devices| == DEVICES_MAX
  {
    Execute(m, Expire(s, now), ParseRequest(opcode, body), now, capacity)
  }

  // ----- Events

  datatype Polled = Quiet(sub: Sub) | Ready(sub: Sub, event: Event)

  function ResyncEvent(sub: Sub, reason: u8, now: u64): Event {
    Event(RESYNC_KIND, sub.id, sub.generation, sub.revision, now, 0, reason, [])
  }

  function ChangeEvent(sub: Sub, c: Change): Event {
    Event(c.kind, sub.id, sub.generation, c.revision, c.timeMs, c.presence, 0, if c.kind == CHANGE then [c.entry] else [])
  }

  function Poll(m: Model, sub: Sub, now: u64): Polled {
    if sub.id == 0 || sub.paused == PAUSED then Quiet(sub)
    else if sub.paused != 0 then Lose(sub, sub.paused, now)
    else if sub.pending then Quiet(sub)
    else
      match Next(m, sub.handle, sub.generation, sub.cursor)
      case Resync(reason) => Lose(sub, reason, now)
      case CaughtUp => Quiet(sub.(cursor := |m.log|))
      case Delivered(c, cursor) =>
        if c.revision != sub.revision + 1 then Lose(sub.(cursor := cursor), LOST, now)
        else Ready(sub.(cursor := cursor, revision := c.revision), ChangeEvent(sub, c))
  }

  function Lose(sub: Sub, reason: u8, now: u64): Polled {
    Ready(sub.(pending := false, paused := PAUSED), ResyncEvent(sub, reason, now))
  }

  /** Up to `tries` subscriptions from the round-robin position, up to the first that is ready. */
  function Scan(m: Model, s: Session, now: u64, tries: nat): (r: (Session, Option<Event>))
    requires |s.subs| == SUBSCRIPTIONS
    ensures |r.0.subs| == SUBSCRIPTIONS
    decreases tries
  {
    if tries == 0 then (s, None)
    else
      var k := s.roundRobin % SUBSCRIPTIONS;
      var p := Poll(m, s.subs[k], now);
      var t := s.(roundRobin := (s.roundRobin + 1) % 0x1_0000, subs := s.subs[k := p.sub]);
      if p.Ready? then (t, Some(p.event)) else Scan(m, t, now, tries - 1)
  }

  function Emit(m: Model, s: Session, now: u64, capacity: nat): (r: (Session, Option<Event>))
    requires |s.subs| == SUBSCRIPTIONS
    ensures |r.0.subs| == SUBSCRIPTIONS
  {
    if capacity < EVENT_HEADER + MAX_ENTRY then (Expire(s, now), None)
    else Scan(m, Expire(s, now), now, SUBSCRIPTIONS)
  }
}
