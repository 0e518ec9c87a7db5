/**
 The session object: subscriptions and the frozen snapshot updated in place, frames written into
 the caller's buffer.  Its two operations are proved to be those of module CacheSession, byte for
 byte on the wire.
 */
module CacheEndpoint {
  import opened Words
  import opened Buffers
  import opened CacheModel
  import opened CacheRegistry
  import opened CacheWire
  import opened CacheSession
  import opened CacheDelivery

  method PutEntry(out: array<u8>, at: nat, e: Entry) returns (size: nat)
    requires |e.id| < 0x100 && at + EntrySize(e) <= out.Length
    modifies out
    ensures size == EntrySize(e) && out[..] == Over(old(out[..]), at, EncodeEntry(e))
  {
    SizeOfEntry();
    ghost var before := out[..];
    out[at] := |e.id|;
    PutBytes(out, at + 1, e.id);
    var tail := at + 1 + |e.id|;
    ghost var middle := out[..];
    PutFields(out, tail, ENTRY_LAYOUT, [e.widthBits, e.valid, e.source, e.value, e.updatedMs]);
    size := |e.id| + 20;
    assert out[..] == middle[..tail] + EntryFields(e) + before[at + size..];
    assert middle[..tail] == before[..at] + [|e.id|] + e.id;
    assert out[..] == before[..at] + EncodeEntry(e) + before[at + size..];
  }

  lemma {:induction false} EncodeAppend(es: seq<Entry>, e: Entry)
    requires ShortIds(es) && |e.id| < 0x100
    ensures EncodeEntries(es + [e]) == EncodeEntries(es) + EncodeEntry(e)
  {
    if es == [] {
      assert es + [e] == [e];
      assert EncodeEntries([e]) == EncodeEntry(e) + EncodeEntries([]);
    } else {
      assert (es + [e])[1..] == es[1..] + [e];
      EncodeAppend(es[1..], e);
    }
  }

  lemma {:induction false} FitCountSplit(entries: seq<Entry>, n: nat, room: nat, left: nat)
    requires n <= |entries| && ShortIds(entries) && room == left + |EncodeEntries(entries[..n])|
    ensures FitCount(entries, room) >= n ==> FitCount(entries, room) == n + FitCount(entries[n..], left)
    ensures FitCount(entries, room) >= n
  {
    if n > 0 {
      var rest := entries[1..];
      assert entries[..n][1..] == rest[..n - 1];
      FitCountSplit(rest, n - 1, room - EntrySize(entries[0]), left);
      assert rest[n - 1..] == entries[n..];
    }
  }

  /** A device's entries can be written: every id fits its length byte. */
  lemma CatalogIds(entries: seq<Entry>)
    requires NormalCatalog(entries)
    ensures ShortIds(entries) && |entries| <= RESOURCES_MAX
  {
  }

  /** Writes entries behind the page header while they fit. */
  method PutEntries(out: array<u8>, rest: seq<Entry>, capacity: nat) returns (count: nat, used: nat)
    requires PAGE_HEADER <= capacity <= out.Length && ShortIds(rest)
    modifies out
    ensures count == FitCount(rest, capacity - PAGE_HEADER)
    ensures used == PAGE_HEADER + |EncodeEntries(rest[..count])| <= capacity
    ensures out[PAGE_HEADER..used] == EncodeEntries(rest[..count])
  {
    hide Pack, EncodeEntry;
    count, used := 0, PAGE_HEADER;
    while count < |rest|
      invariant count <= |rest| && PAGE_HEADER <= used <= capacity
      invariant used == PAGE_HEADER + |EncodeEntries(rest[..count])|
      invariant out[PAGE_HEADER..used] == EncodeEntries(rest[..count])
    {
      var e := rest[count];
      FitCountSplit(rest, count, capacity - PAGE_HEADER, capacity - used);
      if |e.id| + 20 > capacity - used {
        return;
      }
      ghost var before := out[PAGE_HEADER..used];
      var n := PutEntry(out, used, e);
      assert out[PAGE_HEADER..used + n] == before + EncodeEntry(e);
      EncodeAppend(rest[..count], e);
      assert rest[..count + 1] == rest[..count] + [e];
      used, count := used + n, count + 1;
    }
    FitCountSplit(rest, count, capacity - PAGE_HEADER, capacity - used);
  }

  lemma {:induction false} EncodedSize(es: seq<Entry>)
    requires ShortIds(es) && forall i :: 0 <= i < |es| ==> NormalEntry(es[i])
    ensures |EncodeEntries(es)| <= MAX_ENTRY * |es|
  {
    if es != [] {
      EncodedSize(es[1..]);
    }
  }

  lemma SnapshotSize(entries: seq<Entry>, first: nat, count: nat)
    requires NormalCatalog(entries) && first + count <= |entries|
    ensures ShortIds(entries[first..first + count])
    ensures PAGE_HEADER + |EncodeEntries(entries[first..first + count])| < 0x1_0000
  {
    EncodedSize(entries[first..first + count]);
  }

  /** The page header goes in front of the entries already written. */
  method PutHeader(p: Page, out: array<u8>, used: nat)
    requires ShortIds(p.entries) && PAGE_HEADER <= used <= out.Length
    requires out[PAGE_HEADER..used] == EncodeEntries(p.entries)
    modifies out
    ensures out[..used] == EncodePage(p)
  {
    hide Pack, EncodeEntries;
    Sizes();
    hide Size;
    ghost var body := out[PAGE_HEADER..used];
    PutFields(out, 0, PAGE_LAYOUT, p.Fields());
    assert out[..used] == Pack(PAGE_LAYOUT, p.Fields()) + body;
  }

  /** The buffer holds exactly the page, or nothing was meant to be sent. */
  ghost predicate Written(page: Option<Page>, out: Bytes, size: nat, capacity: nat) {
    match page
    case None => size == 0
    case Some(p) => ShortIds(p.entries) && size <= capacity <= |out| && out[..size] == EncodePage(p)
  }

  /** Reads a length-prefixed name at `at`; `next` is where the bytes after it start. */
  method ReadName(body: Bytes, at: nat) returns (ok: bool, name: Bytes, next: nat)
    requires at <= |body|
    ensures match ParseName(body[at..])
            case None => !ok
            case Some((n, rest)) => ok && name == n && next <= |body| && rest == body[next..]
  {
    ok, name, next := false, [], at;
    ghost var from := body[at..];
    if at == |body| {
      return;
    }
    var len := body[at];
    if len == 0 || len >= NAME_MAX || len > |body| - at - 1 {
      return;
    }
    name := body[at + 1..at + 1 + len];
    Behind(body, at, 1, 1 + len);
    assert from[0] == len && name == from[1..1 + from[0]];
    var i := 0;
    while i < len && NameChar(name[i])
      invariant 0 <= i <= len
      invariant forall k :: 0 <= k < i ==> NameChar(name[k])
    {
      i := i + 1;
    }
    assert NameValid(name) <==> i == len;
    if i < len {
      return;
    }
    ok, next := true, at + 1 + len;
  }

  /** The bytes behind `at`, counted from there or from the start. */
  lemma Behind(body: Bytes, at: nat, i: nat, j: nat)
    requires i <= j && at + j <= |body|
    ensures body[at..][i..j] == body[at + i..at + j] && body[at..][j..] == body[at + j..]
  {
  }

  method ReadRequest(opcode: u8, body: Bytes) returns (command: Command)
    ensures command == ParseRequest(opcode, body)
  {
    hide ParseName, FromBe, Limit;
    Limits();
    if opcode != GET && opcode != SUBSCRIBE && opcode != UNSUBSCRIBE {
      return Refused(UNSUPPORTED);
    }
    if |body| == 0 {
      return Refused(MALFORMED);
    }
    if body[0] != VERSION {
      return Refused(UNSUPPORTED);
    }
    if opcode == UNSUBSCRIBE {
      if |body| != 3 {
        return Refused(MALFORMED);
      }
      return Drop(FromBe(body[1..]));
    }
    var ok, subsystem, at := ReadName(body, 1);
    if !ok {
      return Refused(MALFORMED);
    }
    var name;
    ok, name, at := ReadName(body, at);
    if !ok {
      return Refused(MALFORMED);
    }
    var tail := body[at..];
    if opcode == SUBSCRIBE {
      return if tail == [] then Start(subsystem, name, true) else Refused(MALFORMED);
    }
    if |tail| != 6 {
      return Refused(MALFORMED);
    }
    var token, first := FromBe(tail[..4]), FromBe(tail[4..]);
    command :=
      if token != 0 then Continue(subsystem, name, token, first)
      else if first != 0 then Refused(MALFORMED)
      else Start(subsystem, name, false);
  }

  /** The event header, with the changed resource behind it if there is one. */
  method PutEvent(e: Event, out: array<u8>) returns (size: u16)
    requires ShortIds(e.entries) && |e.entries| <= 1 && out.Length >= EVENT_HEADER + MAX_ENTRY
    requires forall i :: 0 <= i < |e.entries| ==> |e.entries[i].id| < NAME_MAX
    modifies out
    ensures 0 < size <= EVENT_HEADER + MAX_ENTRY && out[..size] == EncodeEvent(e)
  {
    hide Pack, EncodeEntry;
    Sizes();
    hide Size;
    PutFields(out, 0, EVENT_LAYOUT, e.Fields());
    size := EVENT_HEADER;
    ghost var head := out[..EVENT_HEADER];
    assert head == Pack(EVENT_LAYOUT, e.Fields());
    if e.entries != [] {
      var n := PutEntry(out, EVENT_HEADER, e.entries[0]);
      size := EVENT_HEADER + n;
      assert e.entries == [e.entries[0]];
      assert EncodeEntries(e.entries) == EncodeEntry(e.entries[0]) + EncodeEntries([]);
      assert out[..size] == head + EncodeEntry(e.entries[0]);
    }
  }

  ghost predicate Announced(e: Option<Event>, out: Bytes, size: nat) {
    match e
    case None => size == 0
    case Some(event) => ShortIds(event.entries) && size <= |out| && out[..size] == EncodeEvent(event)
  }

  class Endpoint {
    const registry: Registry
    const subs: array<Sub>
    var snapshot: Device
    var activity: u64
    var token: u32
    var lastToken: u32
    var snapshotSub: u16
    var progress: nat
    var lastSub: u16
    var roundRobin: u16

    ghost predicate Valid()
      reads this, subs, registry, registry.devices, registry.journal
    {
      registry.Valid() && subs.Length == SUBSCRIPTIONS && NormalCatalog(snapshot.entries)
    }

    ghost function Abstract(): Session
      reads this, subs
    {
      Session(snapshot, subs[..], activity, token, lastToken, snapshotSub, progress, lastSub, roundRobin)
    }

    constructor (registry: Registry)
      requires registry.Valid()
      ensures Valid() && fresh(subs) && this.registry == registry && Abstract() == START
    {
      this.registry := registry;
      subs := new Sub[SUBSCRIPTIONS](_ => FREE);
      snapshot, activity, token, lastToken, snapshotSub, progress, lastSub, roundRobin := NO_DEVICE, 0, 0, 0, 0, 0, 0, 0;
    }

    method Find(id: u16) returns (i: nat)
      requires subs.Length == SUBSCRIPTIONS
      ensures i == SubIndex(subs[..], id)
    {
      i := 0;
      if id == 0 {
        return SUBSCRIPTIONS;
      }
      while i < SUBSCRIPTIONS
        invariant 0 <= i <= SubIndex(subs[..], id)
      {
        assert subs[i] == subs[..][i];
        if subs[i].id == id {
          return;
        }
        i := i + 1;
      }
    }

    method Expire(now: u64)
      requires Valid()
      modifies this`token, subs
      ensures Valid() && Abstract() == CacheSession.Expire(old(Abstract()), now)
    {
      if token != 0 && Elapsed(now, activity) >= SNAPSHOT_MS {
        var i := Find(snapshotSub);
        if i < SUBSCRIPTIONS && subs[i].pending {
          ghost var before := subs[..];
          subs[i] := subs[i].(paused := EXPIRED);
          assert subs[..] == before[i := subs[i]];
        }
        token := 0;
      }
    }

    /** Progress moves only when the page continues the last; the end of the snapshot opens its stream. */
    method MarkServed(first: nat, count: nat)
      requires Valid()
      modifies this`progress, subs
      ensures Valid()
      ensures Abstract() == Marked(old(Abstract()), first, count)
    {
      ghost var before := subs[..];
      var i := Find(snapshotSub);
      if first == progress {
        progress := first + count;
      }
      if i < SUBSCRIPTIONS && progress == |snapshot.entries| {
        subs[i] := subs[i].(pending := false);
        assert subs[..] == before[i := subs[i]];
      }
    }

    method Page(first: nat, out: array<u8>, capacity: nat) returns (status: u16, size: u16)
      requires Valid() && capacity <= out.Length && first < 0x1_0000
      modifies this`progress, subs, out
      ensures Valid()
      ensures var r := ServePage(old(Abstract()), first, capacity);
        status == r.status && Abstract() == r.session && Written(r.page, out[..], size, capacity)
    {
      hide FitCount, NormalCatalog, SubIndex, EncodePage, Marked;
      if first > |snapshot.entries| || capacity < PAGE_HEADER {
        return RANGE, 0;
      }
      ServedPage(Abstract(), first, capacity);
      hide ServePage;
      var head := CacheWire.Page(snapshotSub, token, snapshot.generation, snapshot.revision, snapshot.capturedMs,
                                 |snapshot.entries|, first, snapshot.presence, []);
      var sent, count, used := PutPage(head, snapshot.entries, out, capacity);
      if !sent {
        return RANGE, 0;
      }
      MarkServed(first, count);
      status, size := OK, used;
    }

    method FindFree() returns (i: nat)
      requires subs.Length == SUBSCRIPTIONS
      ensures i == FreeIndex(subs[..])
    {
      i := 0;
      while i < SUBSCRIPTIONS
        invariant 0 <= i <= FreeIndex(subs[..])
      {
        assert subs[i] == subs[..][i];
        if subs[i].id == 0 {
          return;
        }
        i := i + 1;
      }
    }

    method FindHandle(handle: u16) returns (i: nat)
      requires subs.Length == SUBSCRIPTIONS
      ensures i == HandleIndex(subs[..], handle)
    {
      i := 0;
      while i < SUBSCRIPTIONS
        invariant 0 <= i <= HandleIndex(subs[..], handle)
      {
        assert subs[i] == subs[..][i];
        if subs[i].id != 0 && subs[i].handle == handle {
          return;
        }
        i := i + 1;
      }
    }

    method Unsubscribe(id: u16) returns (status: u16)
      requires Valid()
      modifies this`token, this`snapshotSub, subs
      ensures Valid()
      ensures Reply(status, Abstract(), None) == DropSub(old(Abstract()), id)
    {
      var i := Find(id);
      if i == SUBSCRIPTIONS {
        return NOT_FOUND;
      }
      ghost var before := subs[..];
      if snapshotSub == id {
        snapshotSub, token := 0, 0;
      }
      subs[i] := FREE;
      assert subs[..] == before[i := FREE];
      status := OK;
    }

    method Resume(subsystem: Bytes, name: Bytes, asked: u32, first: u16, now: u64, out: array<u8>, capacity: nat)
      returns (status: u16, size: u16)
      requires Valid() && capacity <= out.Length
      modifies this`progress, this`activity, subs, out
      ensures Valid()
      ensures var r := ContinueSnapshot(old(Abstract()), subsystem, name, asked, first, now, capacity);
        status == r.status && Abstract() == r.session && Written(r.page, out[..], size, capacity)
    {
      hide ServePage, Written, NormalCatalog;
      assert Written(None, out[..], 0, capacity) by { NothingWritten(out[..], capacity); }
      if asked != token || subsystem != snapshot.subsystem || name != snapshot.name {
        return STALE_SNAPSHOT, 0;
      }
      status, size := Page(first, out, capacity);
      if status == OK {
        activity := now;
      }
    }

    /** Takes or renews the subscription for the captured snapshot. */
    method Enlist(c: Capture, free: nat) returns (enlisted: bool)
      requires Valid() && free == FreeIndex(subs[..]) && snapshot == c.device && snapshotSub == 0
      modifies this`lastSub, this`snapshotSub, subs
      ensures Valid()
      ensures var i := SlotFor(old(subs[..]), c.handle);
        && enlisted == !(i == SUBSCRIPTIONS || (old(subs[..])[i].id == 0 && old(lastSub) == 0xFFFF))
        && Abstract() == if enlisted then Renewed(old(Abstract()), c, i) else old(Abstract())
    {
      hide NormalCatalog;
      var i := FindHandle(c.handle);
      if i == SUBSCRIPTIONS {
        i := free;
      }
      if i == SUBSCRIPTIONS || (subs[i].id == 0 && lastSub == 0xFFFF) {
        return false;
      }
      ghost var before := subs[..];
      var id := subs[i].id;
      if id == 0 {
        lastSub := lastSub + 1;
        id := lastSub;
      }
      subs[i] := Sub(id, c.handle, c.device.generation, c.device.revision, c.cursor, true, 0);
      assert subs[..] == before[i := subs[i]];
      snapshotSub := id;
      enlisted := true;
    }

    method IssuePage(now: u64, out: array<u8>, capacity: nat) returns (status: u16, size: u16)
      requires Valid() && capacity <= out.Length
      modifies this`token, this`lastToken, this`activity, this`progress, subs, out
      ensures Valid()
      ensures var r := Issue(old(Abstract()), now, capacity);
        status == r.status && Abstract() == r.session && Written(r.page, out[..], size, capacity)
    {
      hide ServePage, Written, NormalCatalog, WellFormed;
      lastToken := NextNonZero(lastToken);
      token, activity := lastToken, now;
      status, size := Page(0, out, capacity);
    }

    method Begin(subsystem: Bytes, name: Bytes, subscribe: bool, now: u64, out: array<u8>, capacity: nat)
      returns (status: u16, size: u16)
      requires Valid() && capacity <= out.Length
      modifies this, subs, out
      ensures Valid()
      ensures var r := StartSnapshot(registry.Abstract(), old(Abstract()), subsystem, name, subscribe, now, capacity);
        status == r.status && Abstract() == r.session && Written(r.page, out[..], size, capacity)
    {
      hide Issue, Written, NormalCatalog, CacheModel.Snapshot, SubIndex, FreeIndex, HandleIndex, WellFormed;
      NothingWritten(out[..], capacity);
      ghost var s := Abstract();
      var p := Find(snapshotSub);
      if token != 0 && p < SUBSCRIPTIONS && subs[p].pending {
        return BUSY, 0;
      }
      if capacity < PAGE_HEADER + MAX_ENTRY {
        return RANGE, 0;
      }
      var free := SUBSCRIPTIONS;
      if subscribe {
        free := FindFree();
      }
      var found := registry.Snapshot(subsystem, name, now);
      if found.None? {
        return NOT_FOUND, 0;
      }
      CapturedNormal(registry.Abstract(), subsystem, name, now);
      StartAdopts(registry.Abstract(), s, subsystem, name, subscribe, now, capacity);
      hide StartSnapshot, Adopted;
      status, size := Adopt(found.value, subscribe, free, now, out, capacity);
    }

    /** A new capture replaces the old token, even when the subscription is then refused. */
    method Adopt(c: Capture, subscribe: bool, free: nat, now: u64, out: array<u8>, capacity: nat)
      returns (status: u16, size: u16)
      requires Valid() && capacity <= out.Length && NormalCatalog(c.device.entries)
      requires subscribe ==> free == FreeIndex(subs[..])
      modifies this, subs, out
      ensures Valid()
      ensures var r := Adopted(old(Abstract()), c, subscribe, now, capacity);
        status == r.status && Abstract() == r.session && Written(r.page, out[..], size, capacity)
    {
      hide Issue, Written, NormalCatalog, HandleIndex, FreeIndex, WellFormed;
      NothingWritten(out[..], capacity);
      snapshot := c.device;
      token, snapshotSub, progress := 0, 0, 0;
      if subscribe {
        var enlisted := Enlist(c, free);
        if !enlisted {
          return BUSY, 0;
        }
      }
      status, size := IssuePage(now, out, capacity);
    }

    /** One request: whatever the peer sent, the answer and the new session are those of the model. */
    method Request(opcode: u8, body: Bytes, now: u64, out: array<u8>, capacity: nat) returns (status: u16, size: u16)
      requires Valid() && capacity <= out.Length
      modifies this, subs, out
      ensures Valid()
      ensures var r := CacheSession.Request(registry.Abstract(), old(Abstract()), opcode, body, now, capacity);
        status == r.status && Abstract() == r.session && Written(r.page, out[..], size, capacity)
    {
      hide Written, DropSub, ContinueSnapshot, StartSnapshot, CacheSession.Expire, ParseRequest, NormalCatalog, WellFormed;
      NothingWritten(out[..], capacity);
      Expire(now);
      var command := ReadRequest(opcode, body);
      match command {
        case Refused(refusal) =>
          status, size := refusal, 0;
        case Drop(id) =>
          status := Unsubscribe(id);
          size := 0;
        case Continue(subsystem, name, asked, first) =>
          status, size := Resume(subsystem, name, asked, first, now, out, capacity);
        case Start(subsystem, name, subscribe) =>
          status, size := Begin(subsystem, name, subscribe, now, out, capacity);
      }
    }

    /** What the subscription has to say, and where it stands once it has been said. */
    method Judge(sub: Sub, now: u64) returns (p: Polled)
      requires Valid()
      ensures p == Poll(registry.Abstract(), sub, now)
    {
      if sub.id == 0 || sub.paused == PAUSED || (sub.paused == 0 && sub.pending) {
        return Quiet(sub);
      }
      if sub.paused != 0 {
        return Ready(sub.(pending := false, paused := PAUSED), ResyncEvent(sub, sub.paused, now));
      }
      var result, advanced := registry.Next(sub.handle, sub.generation, sub.cursor);
      var moved := sub.(cursor := advanced);
      if result.Delivered? && result.change.revision != sub.revision + 1 {
        result := Resync(LOST);
      }
      match result {
        case CaughtUp =>
          p := Quiet(moved);
        case Resync(reason) =>
          p := Ready(moved.(pending := false, paused := PAUSED), ResyncEvent(moved, reason, now));
        case Delivered(c, _) =>
          p := Ready(moved.(revision := c.revision), ChangeEvent(moved, c));
      }
    }

    /** Polls the subscription in slot `k`; an event is written and its position remembered. */
    method PollSlot(k: nat, now: u64, out: array<u8>) returns (size: u16)
      requires Valid() && k < SUBSCRIPTIONS && out.Length >= EVENT_HEADER + MAX_ENTRY
      modifies subs, out
      ensures Valid()
      ensures var p := Poll(registry.Abstract(), old(subs[..])[k], now);
        && Abstract() == old(Abstract()).(subs := old(subs[..])[k := p.sub])
        && Announced(if p.Ready? then Some(p.event) else None, out[..], size)
        && (p.Quiet? <==> size == 0)
    {
      hide NormalCatalog, EncodeEvent, Poll, WellFormed;
      var p := Judge(subs[k], now);
      size := 0;
      if p.Ready? {
        EventFits(registry.Abstract(), subs[k], now);
        size := PutEvent(p.event, out);
      }
      subs[k] := p.sub;
      assert subs[..] == old(subs[..])[k := p.sub];
    }

    /** At most one event, from the first ready subscription after the last one served. */
    method Event(now: u64, out: array<u8>, capacity: nat) returns (size: u16)
      requires Valid() && capacity <= out.Length
      modifies this`token, this`roundRobin, subs, out
      ensures Valid()
      ensures var (s, e) := Emit(registry.Abstract(), old(Abstract()), now, capacity);
        Abstract() == s && Announced(e, out[..], size)
    {
      hide NormalCatalog, WellFormed, Poll, CacheSession.Expire, EncodeEvent, Announced, Scan;
      Unannounced(out[..]);
      Expire(now);
      size := 0;
      if capacity < EVENT_HEADER + MAX_ENTRY {
        return;
      }
      ghost var m := registry.Abstract();
      ghost var target := Scan(m, Abstract(), now, SUBSCRIPTIONS);
      var i := 0;
      while i < SUBSCRIPTIONS
        invariant 0 <= i <= SUBSCRIPTIONS && size == 0 && Valid() && registry.Abstract() == m
        invariant target == Scan(m, Abstract(), now, SUBSCRIPTIONS - i)
      {
        ScanStep(m, Abstract(), now, SUBSCRIPTIONS - i);
        var k := roundRobin % SUBSCRIPTIONS;
        roundRobin := (roundRobin + 1) % 0x1_0000;
        size := PollSlot(k, now, out);
        if size != 0 {
          return;
        }
        i := i + 1;
      }
      ScanOver(m, Abstract(), now);
      Unannounced(out[..]);
    }
  }

  lemma ScanStep(m: Model, s: Session, now: u64, tries: nat)
    requires |s.subs| == SUBSCRIPTIONS && tries > 0
    ensures var k := s.roundRobin % SUBSCRIPTIONS;
      var p := Poll(m, s.subs[k], now);
      var t := s.(roundRobin := (s.roundRobin + 1) % 0x1_0000, subs := s.subs[k := p.sub]);
      Scan(m, s, now, tries) == if p.Ready? then (t, Some(p.event)) else Scan(m, t, now, tries - 1)
  {
  }

  lemma ScanOver(m: Model, s: Session, now: u64)
    requires |s.subs| == SUBSCRIPTIONS
    ensures Scan(m, s, now, 0) == (s, None)
  {
  }

  lemma Unannounced(out: Bytes)
    ensures Announced(None, out, 0)
  {
  }

  lemma EventFits(m: Model, sub: Sub, now: u64)
    requires WellFormed(m) && Poll(m, sub, now).Ready?
    ensures var es := Poll(m, sub, now).event.entries;
      |es| <= 1 && ShortIds(es) && forall i :: 0 <= i < |es| ==> |es[i].id| < NAME_MAX
  {
    var n := Next(m, sub.handle, sub.generation, sub.cursor);
    if n.Delivered? {
      assert NormalChange(m.log[n.cursor - 1]);
    }
  }

  function Adopted(s: Session, c: Capture, subscribe: bool, now: u64, capacity: nat): Reply {
    var t := s.(snapshot := c.device, token := 0, snapshotSub := 0, progress := 0);
    var i := SlotFor(t.subs, c.handle);
    if !subscribe then Issue(t, now, capacity)
    else if i == |t.subs| || (t.subs[i].id == 0 && t.lastSub == 0xFFFF) then Reply(BUSY, t, None)
    else Issue(Renewed(t, c, i), now, capacity)
  }

  lemma StartAdopts(m: Model, s: Session, subsystem: Bytes, name: Bytes, subscribe: bool, now: u64, capacity: nat)
    requires |m.devices| == DEVICES_MAX && CacheModel.Snapshot(m, subsystem, name, now).Some? && capacity >= PAGE_HEADER + MAX_ENTRY
    requires var p := SubIndex(s.subs, s.snapshotSub); !(s.token != 0 && p < |s.subs| && s.subs[p].pending)
    ensures StartSnapshot(m, s, subsystem, name, subscribe, now, capacity) ==
            Adopted(s, CacheModel.Snapshot(m, subsystem, name, now).value, subscribe, now, capacity)
  {
    hide CacheModel.Snapshot, Issue;
  }

  lemma NothingWritten(out: Bytes, capacity: nat)
    ensures Written(None, out, 0, capacity)
  {
  }

  lemma CapturedNormal(m: Model, subsystem: Bytes, name: Bytes, now: u64)
    requires WellFormed(m) && Snapshot(m, subsystem, name, now).Some?
    ensures NormalCatalog(Snapshot(m, subsystem, name, now).value.device.entries)
  {
    var c := Snapshot(m, subsystem, name, now).value;
    assert NormalDevice(m.devices[c.handle - 1]);
  }

  /** Writes as many entries as fit, and then the header over the space left for it. */
  method PutPage(head: Page, entries: seq<Entry>, out: array<u8>, capacity: nat) returns (sent: bool, count: nat, size: u16)
    requires NormalCatalog(entries) && head.first <= |entries| && PAGE_HEADER <= capacity <= out.Length
    modifies out
    ensures count == FitCount(entries[head.first..], capacity - PAGE_HEADER)
    ensures sent == (count > 0 || head.first == |entries|)
    ensures sent ==> Written(Some(head.(entries := entries[head.first..head.first + count])), out[..], size, capacity)
  {
    hide FitCount, NormalCatalog, EncodeEntries, Pack;
    CatalogIds(entries);
    var used;
    count, used := PutEntries(out, entries[head.first..], capacity);
    sent := count > 0 || head.first == |entries|;
    var p := head.(entries := entries[head.first..head.first + count]);
    assert entries[head.first..][..count] == p.entries;
    SnapshotSize(entries, head.first, count);
    size := used;
    if sent {
      PutHeader(p, out, used);
    }
  }

  function Marked(s: Session, first: nat, count: nat): Session {
    var progress := if first == s.progress then first + count else s.progress;
    var i := SubIndex(s.subs, s.snapshotSub);
    var subs := if i < |s.subs| && progress == |s.snapshot.entries| then s.subs[i := s.subs[i].(pending := false)] else s.subs;
    s.(progress := progress, subs := subs)
  }

  lemma ServedPage(s: Session, first: nat, capacity: nat)
    requires first <= |s.snapshot.entries| && capacity >= PAGE_HEADER
    ensures var count := FitCount(s.snapshot.entries[first..], capacity - PAGE_HEADER);
      ServePage(s, first, capacity) ==
      if count == 0 && first < |s.snapshot.entries| then Reply(RANGE, s, None)
      else Reply(OK, Marked(s, first, count), Some(PageOf(s, first, count)))
  {
  }
}
