/**
 The client's decoding loops and its mutable state: the local copy a program watches and the
 queue of events that arrived early.
 */
module CacheReceiver {
  import opened Words
  import opened CacheModel
  import opened CacheWire
  import opened CacheClient

  function Joined(head: seq<Entry>, tail: Option<seq<Entry>>): Option<seq<Entry>> {
    match tail
    case None => None
    case Some(es) => Some(head + es)
  }

  lemma ParseStep(b: Bytes, count: nat, head: seq<Entry>)
    requires count > 0 && ParseEntry(b).Some?
    ensures var (e, rest) := ParseEntry(b).value;
      Joined(head, ParseEntries(b, count)) == Joined(head + [e], ParseEntries(rest, count - 1))
  {
    var (e, rest) := ParseEntry(b).value;
    match ParseEntries(rest, count - 1)
    case None =>
    case Some(es) => assert head + ([e] + es) == head + [e] + es;
  }

  lemma JoinedNone(tail: Option<seq<Entry>>)
    ensures Joined([], tail) == tail && DistinctIds([])
  {
    match tail
    case None =>
    case Some(es) => assert [] + es == es;
  }

  /** One resource of the body at `offset`, as the client reads it. */
  method DecodeEntry(body: Bytes, offset: nat) returns (ok: bool, e: Entry, next: nat)
    requires offset <= |body|
    ensures match ParseEntry(body[offset..])
            case None => !ok
            case Some((x, rest)) => ok && e == x && offset < next <= |body| && rest == body[next..]
  {
    ok, e, next := false, NO_ENTRY, offset;
    if offset >= |body| {
      return;
    }
    var length := body[offset];
    if !(1 <= length <= 31) || offset + 1 + length + ENTRY_TAIL > |body| {
      return;
    }
    var id := body[offset + 1..offset + 1 + length];
    var fields := body[offset + 1 + length..];
    assert body[offset..][1..][..length] == id && body[offset..][1..][length..] == fields;
    e := ParseFields(id, fields);
    ok := AcceptedFields(e);
    next := offset + 1 + length + ENTRY_TAIL;
    assert fields[ENTRY_TAIL..] == body[next..];
  }

  method DecodeEntries(body: Bytes, offset: nat, count: nat) returns (ok: bool, result: seq<Entry>)
    requires offset <= |body|
    ensures var p := ParseEntries(body[offset..], count);
      if p.Some? && DistinctIds(p.value) then ok && result == p.value else !ok
  {
    hide ParseEntry, DistinctIds;
    result := [];
    var at, i := offset, 0;
    ghost var whole := ParseEntries(body[offset..], count);
    JoinedNone(whole);
    while i < count
      invariant 0 <= i <= count && offset <= at <= |body| && |result| == i
      invariant whole == Joined(result, ParseEntries(body[at..], count - i))
      invariant DistinctIds(result)
    {
      var good, e, next := DecodeEntry(body, at);
      if !good {
        return false, result;
      }
      ParseStep(body[at..], count - i, result);
      var j := 0;
      while j < i
        invariant 0 <= j <= i
        invariant forall k :: 0 <= k < j ==> result[k].id != e.id
      {
        if result[j].id == e.id {
          Clashing(result, e, j, ParseEntries(body[next..], count - i - 1));
          return false, result;
        }
        j := j + 1;
      }
      DistinctAppend(result, e);
      result := result + [e];
      at, i := next, i + 1;
    }
    assert result + [] == result;
    ok := at == |body|;
  }

  lemma Clashing(result: seq<Entry>, e: Entry, j: nat, tail: Option<seq<Entry>>)
    requires j < |result| && result[j].id == e.id
    ensures tail.Some? ==> !DistinctIds(Joined(result + [e], tail).value)
  {
    if tail.Some? {
      var all := result + [e] + tail.value;
      assert all[j] == result[j] && all[|result|] == e;
    }
  }

  lemma DistinctAppend(result: seq<Entry>, e: Entry)
    requires DistinctIds(result) && forall k :: 0 <= k < |result| ==> result[k].id != e.id
    ensures DistinctIds(result + [e])
  {
  }

  method DecodePage(body: Bytes) returns (page: Option<Page>)
    ensures page == ParsePage(body)
  {
    hide Unpack, ParseEntries, Size;
    Sizes();
    if |body| < PAGE_HEADER {
      return None;
    }
    var v := Unpack(PAGE_LAYOUT, body);
    var first, count, total := v[8], v[9], v[7];
    if v[0] != VERSION || v[1] != SNAPSHOT_KIND || v[3] == 0 || v[4] == 0 || v[11] > PRESENCE_UNAVAILABLE
       || first + count > total || (count == 0 && first != total)
       || v[10] != (if first + count == total then LAST_PAGE else first + count) {
      ParsedCount(body[PAGE_HEADER..], count);
      return None;
    }
    var ok, entries := DecodeEntries(body, PAGE_HEADER, count);
    ParsedCount(body[PAGE_HEADER..], count);
    page := if ok then Some(Page(v[2], v[3], v[4], v[5], v[6], total, first, v[11], entries)) else None;
  }

  lemma ParsedCount(b: Bytes, count: nat)
    ensures ParseEntries(b, count).Some? ==> |ParseEntries(b, count).value| == count
  {
  }

  method DecodeEvent(body: Bytes) returns (event: Option<Event>)
    ensures event == ParseEvent(body)
  {
    hide Unpack, ParseEntries, Size;
    Sizes();
    if |body| < EVENT_HEADER {
      return None;
    }
    var v := Unpack(EVENT_LAYOUT, body);
    var kind, reason, count := v[1], v[7], v[8];
    if v[0] != VERSION || !(kind in {CHANGE, PRESENCE, RESYNC_KIND}) || v[2] == 0 || v[3] == 0
       || v[6] > PRESENCE_UNAVAILABLE || count != (if kind == CHANGE then 1 else 0)
       || (kind == RESYNC_KIND && !(reason in {LOST, RECONFIGURED, EXPIRED})) || (kind != RESYNC_KIND && reason != 0) {
      return None;
    }
    var ok, entries := DecodeEntries(body, EVENT_HEADER, count);
    event := if ok then Some(Event(kind, v[2], v[3], v[4], v[5], v[6], reason, entries)) else None;
  }

  /** A program's copy of one device. */
  class Watched {
    const sub: nat
    var replica: Replica

    constructor (sub: nat, replica: Replica)
      ensures this.sub == sub && this.replica == replica
    {
      this.sub, this.replica := sub, replica;
    }

    /** Brings the copy up to date, or marks it unusable until the next snapshot; an event of another subscription is refused. */
    method ApplyEvent(e: Event) returns (applied: bool)
      modifies this
      ensures replica == if e.sub == sub then CacheClient.ApplyEvent(old(replica), e) else old(replica)
      ensures applied == (e.sub == sub && replica.synchronized)
    {
      hide Table;
      if e.sub != sub {
        return false;
      }
      if !replica.synchronized || e.kind == RESYNC_KIND || e.generation != replica.generation
         || e.revision != replica.revision + 1 {
        replica := replica.(synchronized := false);
        return false;
      }
      var i := 0;
      while i < |e.entries|
        invariant 0 <= i <= |e.entries| && replica == old(replica)
        invariant forall k :: 0 <= k < i ==>
          (e.entries[k].id in replica.resources && e.entries[k].widthBits == replica.resources[e.entries[k].id].widthBits)
      {
        if e.entries[i].id !in replica.resources || e.entries[i].widthBits != replica.resources[e.entries[i].id].widthBits {
          replica := replica.(synchronized := false);
          return false;
        }
        i := i + 1;
      }
      replica := replica.(resources := replica.resources + Table(e.entries), revision := e.revision,
                          presence := e.presence, captured := e.time);
      applied := true;
    }
  }

  lemma WithoutFirst(events: seq<Event>, id: nat)
    requires events != []
    ensures Without(events, id) == (if events[0].sub == id then [] else [events[0]]) + Without(events[1..], id)
  {
  }

  lemma PrependLater(before: seq<Event>, e: Event, after: seq<Event>)
    ensures before + [e] + after == before + ([e] + after) && before + ([] + after) == before + after
  {
  }

  lemma WithoutNone(id: nat)
    ensures Without([], id) == []
  {
  }

  /** Events that arrived while a request was outstanding, oldest first. */
  class EventQueue {
    var events: seq<Event>

    constructor ()
      ensures events == []
    {
      events := [];
    }

    method Keep(e: Event) returns (kept: bool)
      modifies this
      ensures kept == (|old(events)| < QUEUE_LIMIT)
      ensures events == if kept then old(events) + [e] else old(events)
    {
      kept := |events| < QUEUE_LIMIT;
      if kept {
        events := events + [e];
      }
    }

    /** Forgets what was queued for an earlier life of a subscription. */
    method Forget(id: nat)
      modifies this
      ensures events == Without(old(events), id)
    {
      var all, i := events, 0;
      events := [];
      hide Without;
      while i < |all|
        invariant 0 <= i <= |all|
        invariant events + Without(all[i..], id) == Without(all, id)
      {
        WithoutFirst(all[i..], id);
        assert all[i..][1..] == all[i + 1..];
        PrependLater(events, all[i], Without(all[i + 1..], id));
        if all[i].sub != id {
          events := events + [all[i]];
        }
        i := i + 1;
      }
      WithoutNone(id);
      assert events + [] == events;
    }
  }
}
