/**
 What a peer that may send any bytes at all sees of one subscription, from its first page to its
 last event.  An observer that knows only the wire checks every page and event; no run of the
 server ever surprises it.
 */
module CacheShape {
  import opened Words
  import opened CacheModel
  import opened CacheWire
  import opened CacheSession
  import opened CacheHistory
  import opened CacheDelivery
  import opened CacheClient
  import opened CacheSystem
  import opened CacheReplication
  import opened CacheServerSteps
  import opened CacheRuns

  /** Where a subscription stands, as told from the frames alone. */
  datatype Watch =
    | Unborn
    | Serving(generation: nat, revision: nat, got: seq<Entry>, total: nat)
    | Streaming(generation: nat, revision: nat)
    | Hushed
    | Ended

  datatype Seen = Nothing | Subscribed(page: Page) | Served(page: Page) | Dropped | Told(event: Event)

  /** One page taken into a snapshot being served; the last one opens the stream. */
  function Taking(w: Watch, p: Page): Option<Watch>
    requires w.Serving?
  {
    if p.generation != w.generation || p.revision != w.revision || p.total != w.total then None
    else if p.first != |w.got| then Some(w)
    else
      var got := w.got + p.entries;
      if |got| == w.total then Some(Streaming(w.generation, w.revision))
      else if |got| < w.total && p.entries != [] then Some(w.(got := got))
      else None
  }

  /** The protocol of one subscription; None is a frame that has no business being sent. */
  function Observe(w: Watch, x: Seen): Option<Watch> {
    match x
    case Nothing => Some(w)
    case Subscribed(p) =>
      if w.Ended? || p.first != 0 then None else Taking(Serving(p.generation, p.revision, [], p.total), p)
    case Served(p) =>
      if w.Unborn? || w.Ended? then None else if w.Serving? then Taking(w, p) else Some(w)
    case Dropped => if w.Unborn? || w.Ended? then None else Some(Ended)
    case Told(e) =>
      match w
      case Serving(g, r, _, _) =>
        if e.kind == RESYNC_KIND && e.reason == EXPIRED && e.generation == g && e.revision == r then Some(Hushed) else None
      case Streaming(g, r) =>
        if e.generation != g then None
        else if e.kind == RESYNC_KIND then
          if e.revision == r && (e.reason == LOST || e.reason == RECONFIGURED) then Some(Hushed) else None
        else if e.revision == r + 1 then Some(Streaming(g, r + 1)) else None
      case _ => None
  }

  /** What an answered request shows of the subscription `id`. */
  function SeenInReply(command: Command, r: Reply, id: u16): Seen {
    if r.status != OK then Nothing
    else
      match command
      case Drop(k) => if k == id then Dropped else Nothing
      case Start(_, _, _) => if r.page.Some? && r.page.value.sub == id then Subscribed(r.page.value) else Nothing
      case Continue(_, _, _, _) => if r.page.Some? && r.page.value.sub == id then Served(r.page.value) else Nothing
      case Refused(_) => Nothing
  }

  function SeenInEvent(e: Option<Event>, id: u16): Seen {
    if e.Some? && e.value.sub == id then Told(e.value) else Nothing
  }

  /** The session's own account of the subscription `id` agrees with the observer's. */
  ghost predicate Agrees(s: Session, id: u16, w: Watch) {
    && (w.Unborn? <==> id > s.lastSub)
    && (w.Unborn? || w.Ended? ==> forall i :: 0 <= i < |s.subs| ==> s.subs[i].id != id)
    && (w.Serving? || w.Streaming? || w.Hushed? ==>
          var i := SubIndex(s.subs, id); i < |s.subs| && AgreesAt(s, s.subs[i], w))
  }

  predicate AgreesAt(s: Session, sub: Sub, w: Watch) {
    match w
    case Serving(g, r, got, total) =>
      && sub.pending && sub.generation == g && sub.revision == r && |got| < total
      && (sub.paused == 0 ==>
            && s.token != 0 && s.snapshotSub == sub.id && AtSnapshot(s, sub) && total == |s.snapshot.entries|
            && s.progress == |got| && got == s.snapshot.entries[..s.progress])
      && (sub.paused == 0 || sub.paused == EXPIRED)
    case Streaming(g, r) => Active(sub) && sub.generation == g && sub.revision == r
    case Hushed => !sub.pending && sub.paused == PAUSED
    case _ => false
  }

  // ----- Polling

  lemma PollObserved(m: Model, h: History, s: Session, sub: Sub, w: Watch, now: u64)
    requires sub.id != 0 && Tracks(m, h, sub) && Faithful(m, h) && AgreesAt(s, sub, w)
    ensures var p := Poll(m, sub, now);
      var seen := if p.Ready? then Told(p.event) else Nothing;
      Observe(w, seen).Some? && AgreesAt(s, p.sub, Observe(w, seen).value)
      && (p.Ready? ==> p.event.sub == sub.id)
  {
    if Active(sub) {
      NextIsContiguous(m, h, sub);
    }
  }

  /** What the tracking of live subscriptions says of one slot. */
  lemma SlotFacts(m: Model, h: History, s: Session, k: nat)
    requires Settled(m, h, s) && k < SUBSCRIPTIONS && s.subs[k].id != 0
    ensures |s.subs| == SUBSCRIPTIONS && Tracks(m, h, s.subs[k]) && SubIndex(s.subs, s.subs[k].id) == k
    ensures forall j :: 0 <= j < SUBSCRIPTIONS && j != k ==> s.subs[j].id != s.subs[k].id
    ensures s.subs[k].id <= s.lastSub
  {
    hide Tracks, Linked;
    SubIndexOf(s.subs, k);
  }

  lemma PolledObserved(m: Model, h: History, s: Session, k: nat, now: u64, id: u16, w: Watch)
    requires Settled(m, h, s) && Faithful(m, h) && k < SUBSCRIPTIONS && id != 0 && Agrees(s, id, w)
    ensures var p := Poll(m, s.subs[k], now);
      var seen := SeenInEvent(EventOf(p), id);
      Observe(w, seen).Some? && Agrees(Polled1(s, k, p.sub), id, Observe(w, seen).value)
  {
    var sub := s.subs[k];
    var p := Poll(m, sub, now);
    var t := Polled1(s, k, p.sub);
    PolledNames(m, sub, now);
    QuietObserved(w);
    assert |s.subs| == SUBSCRIPTIONS;
    hide Poll, Observe, AgreesAt, Tracks, Faithful, Settled;
    if sub.id == id {
      SlotFacts(m, h, s, k);
      assert AgreesAt(s, sub, w);
      PollObserved(m, h, s, sub, w, now);
      OneSlot(s, t, k, w, Observe(w, SeenInEvent(EventOf(p), id)).value);
    } else {
      OtherSlot(s, t, id, w);
    }
  }

  lemma QuietObserved(w: Watch)
    ensures Observe(w, Nothing) == Some(w)
  {
  }

  lemma PolledNames(m: Model, sub: Sub, now: u64)
    ensures Poll(m, sub, now).sub.id == sub.id
    ensures Poll(m, sub, now).Ready? ==> Poll(m, sub, now).event.sub == sub.id
  {
  }

  /** A change of one slot, seen by the observer of its own subscription. */
  lemma OneSlot(s: Session, t: Session, k: nat, w: Watch, v: Watch)
    requires |s.subs| == SUBSCRIPTIONS && k < SUBSCRIPTIONS && s.subs[k].id != 0
    requires t == s.(subs := t.subs, roundRobin := t.roundRobin) && |t.subs| == SUBSCRIPTIONS
    requires forall i :: 0 <= i < SUBSCRIPTIONS ==> t.subs[i].id == s.subs[i].id
    requires SubIndex(s.subs, s.subs[k].id) == k
    requires Agrees(s, s.subs[k].id, w) && !v.Unborn? && !v.Ended? && AgreesAt(s, t.subs[k], v)
    ensures Agrees(t, s.subs[k].id, v)
  {
    SubIndexKept(s.subs, s.subs[k].id, t.subs);
  }

  /** A change of another subscription's slot goes unseen. */
  lemma OtherSlot(s: Session, t: Session, id: u16, w: Watch)
    requires |s.subs| == SUBSCRIPTIONS && t == s.(subs := t.subs, roundRobin := t.roundRobin) && |t.subs| == SUBSCRIPTIONS
    requires forall i :: 0 <= i < SUBSCRIPTIONS ==> t.subs[i].id == s.subs[i].id && (s.subs[i].id == id ==> t.subs[i] == s.subs[i])
    requires Agrees(s, id, w)
    ensures Agrees(t, id, w)
  {
    SubIndexKept(s.subs, id, t.subs);
  }

  lemma {:induction false} ScanObserved(m: Model, h: History, s: Session, now: u64, tries: nat, id: u16, w: Watch)
    requires Settled(m, h, s) && Faithful(m, h) && id != 0 && Agrees(s, id, w)
    ensures var (t, e) := Scan(m, s, now, tries);
      Observe(w, SeenInEvent(e, id)).Some? && Agrees(t, id, Observe(w, SeenInEvent(e, id)).value)
    decreases tries
  {
    hide Settled, Faithful, Agrees, Observe, Poll;
    SettledShape(m, h, s);
    QuietObserved(w);
    if tries > 0 {
      var k := s.roundRobin % SUBSCRIPTIONS;
      var p := Poll(m, s.subs[k], now);
      PolledObserved(m, h, s, k, now, id, w);
      PolledSettled(m, h, s, k, now);
      if p.Quiet? {
        ScanObserved(m, h, Polled1(s, k, p.sub), now, tries - 1, id, w);
      }
    }
  }

  // ----- Requests

  lemma ExpireObserved(m: Model, h: History, s: Session, now: u64, id: u16, w: Watch)
    requires Settled(m, h, s) && id != 0 && Agrees(s, id, w)
    ensures Agrees(Expire(s, now), id, w)
  {
    hide Tracks, Frozen;
    SubIndexKept(s.subs, id, Expire(s, now).subs);
  }

  lemma DropObserved(m: Model, h: History, s: Session, k: u16, id: u16, w: Watch)
    requires Settled(m, h, s) && id != 0 && Agrees(s, id, w)
    ensures var r := DropSub(s, k);
      var seen := SeenInReply(Drop(k), r, id);
      Observe(w, seen).Some? && Agrees(r.session, id, Observe(w, seen).value)
  {
    hide Tracks, Frozen;
    var i := SubIndex(s.subs, k);
    if i < SUBSCRIPTIONS {
      assert DropSub(s, k).session.subs == s.subs[i := FREE];
      if k != id {
        SubIndexWithout(s.subs, i, id);
      }
    }
  }

  /** Serving one page, seen by the observer of the snapshot's owner. */
  lemma OwnPageObserved(m: Model, h: History, s: Session, first: nat, capacity: nat, w: Watch)
    requires Consistent(m, h, s) && s.token != 0 && s.snapshotSub != 0
    requires Agrees(s, s.snapshotSub, w) || (first == 0 && OpensAt(s, w))
    requires ServePage(s, first, capacity).status == OK
    ensures var r := ServePage(s, first, capacity);
      var v := if w.Serving? then Taking(w, r.page.value) else Some(w);
      v.Some? && Agrees(r.session, s.snapshotSub, v.value)
  {
    hide Tracks, Frozen;
    var r := ServePage(s, first, capacity);
    SubIndexKept(s.subs, s.snapshotSub, r.session.subs);
    var i := SubIndex(s.subs, s.snapshotSub);
    assert i < SUBSCRIPTIONS && s.subs[i].paused != EXPIRED;
    if w.Serving? && first == |w.got| {
      var v := s.snapshot;
      assert r.page.value.entries == v.entries[first..][..|r.page.value.entries|];
      assert w.got + r.page.value.entries == v.entries[..first + |r.page.value.entries|];
    }
  }

  /** A subscription just made: nothing of its snapshot has been served. */
  predicate OpensAt(s: Session, w: Watch) {
    && w == Serving(s.snapshot.generation, s.snapshot.revision, [], |s.snapshot.entries|)
    && s.progress == 0 && s.snapshotSub <= s.lastSub
    && var i := SubIndex(s.subs, s.snapshotSub);
       i < |s.subs| && s.subs[i].pending && s.subs[i].paused == 0 && AtSnapshot(s, s.subs[i])
  }

  lemma OtherPageObserved(s: Session, first: nat, capacity: nat, id: u16, w: Watch)
    requires |s.subs| == SUBSCRIPTIONS && id != 0 && id != s.snapshotSub && Agrees(s, id, w)
    ensures Agrees(ServePage(s, first, capacity).session, id, w)
  {
    hide FitCount, PageOf;
    SubIndexKept(s.subs, id, ServePage(s, first, capacity).session.subs);
  }

  lemma ContinueObserved(m: Model, h: History, s: Session, subsystem: Bytes, name: Bytes, token: u32, first: u16,
                         now: u64, capacity: nat, id: u16, w: Watch)
    requires Settled(m, h, s) && id != 0 && token != 0 && Agrees(s, id, w)
    ensures var r := ContinueSnapshot(s, subsystem, name, token, first, now, capacity);
      var seen := SeenInReply(Continue(subsystem, name, token, first), r, id);
      Observe(w, seen).Some? && Agrees(r.session, id, Observe(w, seen).value)
  {
    hide ServePage, Settled, Taking, SubIndex;
    var r := ContinueSnapshot(s, subsystem, name, token, first, now, capacity);
    SettledShape(m, h, s);
    assert Consistent(m, h, s) by { SettledConsistent(m, h, s); }
    hide Consistent;
    PageNames(s, first, capacity);
    if r.status == OK {
      var t := ServePage(s, first, capacity).session;
      if id == s.snapshotSub {
        OwnPageObserved(m, h, s, first, capacity, w);
        OwnerIsKnown(m, h, s, w);
        assert Agrees(t, id, Observe(w, Served(r.page.value)).value);
        assert r.session == t.(activity := now);
      } else {
        OtherPageObserved(s, first, capacity, id, w);
      }
    }
  }

  lemma SettledConsistent(m: Model, h: History, s: Session)
    requires Settled(m, h, s)
    ensures Consistent(m, h, s)
  {
  }

  lemma PageNames(s: Session, first: nat, capacity: nat)
    ensures var r := ServePage(s, first, capacity); if r.status == OK then r.page.Some? && r.page.value.sub == s.snapshotSub else r.session == s
  {
  }

  lemma OwnerIsKnown(m: Model, h: History, s: Session, w: Watch)
    requires Consistent(m, h, s) && s.token != 0 && s.snapshotSub != 0 && Agrees(s, s.snapshotSub, w)
    ensures !w.Unborn? && !w.Ended?
  {
    assert s.subs[SubIndex(s.subs, s.snapshotSub)].id == s.snapshotSub;
  }

  lemma PlainObserved(m: Model, h: History, s: Session, c: Capture, now: u64, capacity: nat, id: u16, w: Watch)
    requires Settled(m, h, s) && id != 0 && Agrees(s, id, w)
    requires forall j :: 0 <= j < SUBSCRIPTIONS && s.subs[j].id != 0 && s.subs[j].pending ==> s.subs[j].paused != 0
    ensures var t := s.(snapshot := c.device, token := 0, snapshotSub := 0, progress := 0);
      var r := Issue(t, now, capacity);
      Agrees(t, id, w) && Agrees(r.session, id, w) && (r.page.Some? ==> r.page.value.sub == 0)
  {
    var t := s.(snapshot := c.device, token := 0, snapshotSub := 0, progress := 0);
    hide Tracks, Frozen, ServePage;
    OtherPageObserved(Tokened(t, now), 0, capacity, id, w);
    IssueNames(t, now, capacity);
  }

  lemma IssueNames(s: Session, now: u64, capacity: nat)
    ensures Issue(s, now, capacity) == ServePage(Tokened(s, now), 0, capacity)
    ensures Issue(s, now, capacity).page.Some? ==> Issue(s, now, capacity).page.value.sub == s.snapshotSub && Issue(s, now, capacity).page.value.first == 0
    ensures Issue(s, now, capacity).status == OK ==> Issue(s, now, capacity).page.Some?
    ensures Issue(s, now, capacity).page.Some? ==> var p := Issue(s, now, capacity).page.value;
      p.generation == s.snapshot.generation && p.revision == s.snapshot.revision && p.total == |s.snapshot.entries|
  {
  }

  lemma SubscribedObserved(m: Model, h: History, s: Session, subsystem: Bytes, name: Bytes, now: u64, capacity: nat,
                           i: nat, id: u16, w: Watch)
    requires Settled(m, h, s) && Faithful(m, h) && capacity >= PAGE_HEADER + MAX_ENTRY && id != 0 && Agrees(s, id, w)
    requires Snapshot(m, subsystem, name, now).Some?
    requires forall j :: 0 <= j < SUBSCRIPTIONS && s.subs[j].id != 0 && s.subs[j].pending ==> s.subs[j].paused != 0
    requires i == SlotFor(s.subs, Snapshot(m, subsystem, name, now).value.handle) && i < SUBSCRIPTIONS
    requires s.subs[i].id == 0 ==> s.lastSub < 0xFFFF
    ensures var c := Snapshot(m, subsystem, name, now).value;
      var t := s.(snapshot := c.device, token := 0, snapshotSub := 0, progress := 0);
      var r := Issue(Renewed(t, c, i), now, capacity);
      var seen := SeenInReply(Start(subsystem, name, true), r, id);
      r.status == OK && Observe(w, seen).Some? && Agrees(r.session, id, Observe(w, seen).value)
  {
    hide Faithful, Snapshot, SlotFor, ServePage, Answered, Agrees, Settled, Consistent, Observe, FirstPage, Tokened,
      Renewed, Issue, SubIndex;
    SettledShape(m, h, s);
    FaithfulShape(m, h);
    SubscribedAnswered(m, h, s, subsystem, name, now, capacity, i);
    SubscribedConsistent(m, h, s, subsystem, name, now, i);
    var c := Snapshot(m, subsystem, name, now).value;
    var t := s.(snapshot := c.device, token := 0, snapshotSub := 0, progress := 0);
    var u := Tokened(Renewed(t, c, i), now);
    RenewedPending(s, t, c, i, now);
    IssueNames(Renewed(t, c, i), now, capacity);
    if id == u.snapshotSub {
      RenewedNotEnded(m, h, s, i, w, id);
      OpenedObserved(m, h, u, i, capacity, w);
    } else {
      RenewedOther(s, t, c, i, now, id, w);
      OtherPageObserved(u, 0, capacity, id, w);
      QuietObserved(w);
    }
  }

  lemma SubscribedConsistent(m: Model, h: History, s: Session, subsystem: Bytes, name: Bytes, now: u64, i: nat)
    requires Settled(m, h, s) && Faithful(m, h) && Snapshot(m, subsystem, name, now).Some?
    requires forall j :: 0 <= j < SUBSCRIPTIONS && s.subs[j].id != 0 && s.subs[j].pending ==> s.subs[j].paused != 0
    requires i == SlotFor(s.subs, Snapshot(m, subsystem, name, now).value.handle) && i < SUBSCRIPTIONS
    requires s.subs[i].id == 0 ==> s.lastSub < 0xFFFF
    ensures var c := Snapshot(m, subsystem, name, now).value;
      var t := s.(snapshot := c.device, token := 0, snapshotSub := 0, progress := 0);
      Consistent(m, h, Tokened(Renewed(t, c, i), now))
  {
    CaptureTrue(m, h, subsystem, name, now);
    var c := Snapshot(m, subsystem, name, now).value;
    var t := s.(snapshot := c.device, token := 0, snapshotSub := 0, progress := 0);
    RenewedTracked(m, h, t, c, i);
    RenewedLinked(m, h, t, c, i, now);
  }

  lemma RenewedPending(s: Session, t: Session, c: Capture, i: nat, now: u64)
    requires |s.subs| == SUBSCRIPTIONS && i < SUBSCRIPTIONS && (s.subs[i].id == 0 ==> s.lastSub < 0xFFFF)
    requires t == s.(snapshot := c.device, token := 0, snapshotSub := 0, progress := 0)
    ensures var u := Tokened(Renewed(t, c, i), now);
      u.snapshotSub == Renewed(t, c, i).snapshotSub == (if s.subs[i].id == 0 then s.lastSub + 1 else s.subs[i].id)
      && |u.subs| == SUBSCRIPTIONS && u.token != 0
      && u.subs[i].id == u.snapshotSub && u.subs[i].id != 0 && u.subs[i].pending && u.subs[i].paused == 0
      && AtSnapshot(u, u.subs[i]) && u.progress == 0
  {
  }

  /** The first page of a subscription just made. */
  lemma OpenedObserved(m: Model, h: History, u: Session, i: nat, capacity: nat, w: Watch)
    requires Consistent(m, h, u) && u.token != 0 && u.snapshotSub != 0 && i < SUBSCRIPTIONS && u.progress == 0
    requires u.subs[i].id == u.snapshotSub && u.subs[i].pending && u.subs[i].paused == 0 && AtSnapshot(u, u.subs[i])
    requires ServePage(u, 0, capacity).status == OK && !w.Ended?
    ensures var r := ServePage(u, 0, capacity);
      && r.page.Some? && r.page.value.sub == u.snapshotSub
      && Observe(w, Subscribed(r.page.value)).Some?
      && Agrees(r.session, u.snapshotSub, Observe(w, Subscribed(r.page.value)).value)
  {
    var v := Serving(u.snapshot.generation, u.snapshot.revision, [], |u.snapshot.entries|);
    SubIndexOf(u.subs, i);
    assert OpensAt(u, v);
    OwnPageObserved(m, h, u, 0, capacity, v);
    hide Consistent, Agrees, Taking;
  }

  /** An id that a SUBSCRIBE takes is either in use or brand new. */
  lemma RenewedNotEnded(m: Model, h: History, s: Session, i: nat, w: Watch, id: u16)
    requires Settled(m, h, s) && i < SUBSCRIPTIONS && id != 0 && Agrees(s, id, w)
    requires id == if s.subs[i].id == 0 then s.lastSub + 1 else s.subs[i].id
    ensures !w.Ended?
  {
  }

  lemma RenewedOther(s: Session, t: Session, c: Capture, i: nat, now: u64, id: u16, w: Watch)
    requires |s.subs| == SUBSCRIPTIONS && i < SUBSCRIPTIONS && id != 0 && Agrees(s, id, w)
    requires forall j :: 0 <= j < SUBSCRIPTIONS && s.subs[j].id != 0 && s.subs[j].pending ==> s.subs[j].paused != 0
    requires t == s.(snapshot := t.snapshot, token := 0, snapshotSub := 0, progress := 0)
    requires s.subs[i].id == 0 ==> s.lastSub < 0xFFFF
    requires Renewed(t, c, i).snapshotSub != id
    ensures Agrees(Tokened(Renewed(t, c, i), now), id, w)
  {
    var u := Tokened(Renewed(t, c, i), now);
    OtherIndex(s.subs, u.subs, i, id);
  }

  lemma {:induction false} OtherIndex(subs: seq<Sub>, after: seq<Sub>, i: nat, id: u16)
    requires |after| == |subs| && i < |subs| && subs[i].id != id && after[i].id != id
    requires forall j :: 0 <= j < |subs| && j != i ==> after[j] == subs[j]
    ensures SubIndex(after, id) == SubIndex(subs, id)
  {
    if id != 0 && subs[0].id != id {
      if i > 0 {
        OtherIndex(subs[1..], after[1..], i - 1, id);
      } else {
        assert after[1..] == subs[1..];
      }
    }
  }

  lemma StartObserved(m: Model, h: History, s: Session, subsystem: Bytes, name: Bytes, subscribe: bool, now: u64,
                      capacity: nat, id: u16, w: Watch)
    requires Settled(m, h, s) && Faithful(m, h) && id != 0 && Agrees(s, id, w)
    ensures var r := StartSnapshot(m, s, subsystem, name, subscribe, now, capacity);
      var seen := SeenInReply(Start(subsystem, name, subscribe), r, id);
      Observe(w, seen).Some? && Agrees(r.session, id, Observe(w, seen).value)
  {
    hide Settled, Faithful, Issue, Snapshot, Observe, Agrees, SlotFor, SubIndex;
    SettledShape(m, h, s);
    FaithfulShape(m, h);
    QuietObserved(w);
    var p := SubIndex(s.subs, s.snapshotSub);
    if !(s.token != 0 && p < SUBSCRIPTIONS && s.subs[p].pending) && capacity >= PAGE_HEADER + MAX_ENTRY
       && Snapshot(m, subsystem, name, now).Some? {
      NobodyPending(m, h, s);
      var c := Snapshot(m, subsystem, name, now).value;
      var i := SlotFor(s.subs, c.handle);
      PlainObserved(m, h, s, c, now, capacity, id, w);
      if subscribe && i < SUBSCRIPTIONS && (s.subs[i].id == 0 ==> s.lastSub < 0xFFFF) {
        SubscribedObserved(m, h, s, subsystem, name, now, capacity, i, id, w);
      }
    }
  }

  // ----- Whole runs against any peer

  /** The registry changes, the peer sends any request at all, or the server looks for an event to send. */
  datatype Move =
    | Changes(action: Action)
    | Asks(opcode: u8, body: Bytes, now: u64, capacity: nat)
    | Tells(now: u64, capacity: nat)

  predicate RegistryAction(a: Action) { a.OnDefine? || a.OnPut? || a.OnPresence? }

  ghost function Moved(y: System, move: Move): System
    requires y.Shaped()
  {
    match move
    case Changes(a) => if RegistryAction(a) then Step(y, a) else y
    case Asks(opcode, body, now, capacity) =>
      y.(session := Request(y.model, y.session, opcode, body, now, capacity).session)
    case Tells(now, capacity) => y.(session := Emit(y.model, y.session, now, capacity).0)
  }

  ghost function SeenIn(y: System, move: Move, id: u16): Seen
    requires y.Shaped()
  {
    match move
    case Changes(_) => Nothing
    case Asks(opcode, body, now, capacity) =>
      SeenInReply(ParseRequest(opcode, body), Request(y.model, y.session, opcode, body, now, capacity), id)
    case Tells(now, capacity) => SeenInEvent(Emit(y.model, y.session, now, capacity).1, id)
  }

  ghost predicate ServerInv(y: System) {
    && y.Shaped() && Faithful(y.model, y.history) && |y.model.log| < U64_LIMIT - 1
    && Settled(y.model, y.history, y.session)
  }

  /** The observer's verdict on a whole run, from the very first frame. */
  ghost function Observed(y: System, moves: seq<Move>, id: u16, w: Watch): Option<Watch>
    requires ServerInv(y)
    decreases |moves|
  {
    if moves == [] then Some(w)
    else
      MovedInv(y, moves[0]);
      match Observe(w, SeenIn(y, moves[0], id))
      case None => None
      case Some(v) => Observed(Moved(y, moves[0]), moves[1..], id, v)
  }

  lemma ServerShape(y: System)
    requires ServerInv(y)
    ensures y.Shaped()
  {
  }

  lemma RegistryMoveInv(y: System, a: Action)
    requires ServerInv(y) && RegistryAction(a)
    ensures ServerInv(Step(y, a)) && Step(y, a).session == y.session
  {
    var quiet := y.(call := None, channel := [], client := FRESH);
    assert Inv(quiet);
    StepInv(quiet, a);
  }

  lemma MovedInv(y: System, move: Move)
    requires ServerInv(y)
    ensures ServerInv(Moved(y, move))
  {
    hide Settled, Faithful, Define;
    match move
    case Changes(a) => if RegistryAction(a) { RegistryMoveInv(y, a); }
    case Asks(opcode, body, now, capacity) =>
      ExpireSettled(y.model, y.history, y.session, now);
      ParsedCommand(opcode, body);
      ExecuteAnswered(y.model, y.history, Expire(y.session, now), ParseRequest(opcode, body), now, capacity);
      SettledShape(y.model, y.history, Moved(y, move).session);
    case Tells(now, capacity) =>
      EmitSettled(y.model, y.history, y.session, now, capacity);
      SettledShape(y.model, y.history, Moved(y, move).session);
  }

  lemma ParsedCommand(opcode: u8, body: Bytes)
    ensures var c := ParseRequest(opcode, body);
      (c.Refused? ==> c.status != OK) && (c.Continue? ==> c.token != 0)
  {
    hide FromBe, NameValid;
  }

  lemma MoveObserved(y: System, move: Move, id: u16, w: Watch)
    requires ServerInv(y) && id != 0 && Agrees(y.session, id, w)
    ensures Observe(w, SeenIn(y, move, id)).Some?
    ensures Agrees(Moved(y, move).session, id, Observe(w, SeenIn(y, move, id)).value)
  {
    QuietObserved(w);
    hide Settled, Faithful, Define, Agrees, Observe;
    match move
    case Changes(a) => if RegistryAction(a) { RegistryMoveInv(y, a); }
    case Asks(opcode, body, now, capacity) =>
      ExpireSettled(y.model, y.history, y.session, now);
      ExpireObserved(y.model, y.history, y.session, now, id, w);
      ParsedCommand(opcode, body);
      ExecuteObserved(y.model, y.history, Expire(y.session, now), ParseRequest(opcode, body), now, capacity, id, w);
    case Tells(now, capacity) =>
      ExpireSettled(y.model, y.history, y.session, now);
      ExpireObserved(y.model, y.history, y.session, now, id, w);
      if capacity >= EVENT_HEADER + MAX_ENTRY {
        ScanObserved(y.model, y.history, Expire(y.session, now), now, SUBSCRIPTIONS, id, w);
      }
  }

  lemma ExecuteObserved(m: Model, h: History, s: Session, command: Command, now: u64, capacity: nat, id: u16, w: Watch)
    requires Settled(m, h, s) && Faithful(m, h) && id != 0 && Agrees(s, id, w) && |m.devices| == DEVICES_MAX
    requires command.Continue? ==> command.token != 0
    ensures var r := Execute(m, s, command, now, capacity);
      var seen := SeenInReply(command, r, id);
      Observe(w, seen).Some? && Agrees(r.session, id, Observe(w, seen).value)
  {
    hide Settled, Faithful, Agrees;
    match command
    case Refused(_) =>
    case Drop(k) => DropObserved(m, h, s, k, id, w);
    case Continue(subsystem, name, token, first) => ContinueObserved(m, h, s, subsystem, name, token, first, now, capacity, id, w);
    case Start(subsystem, name, subscribe) => StartObserved(m, h, s, subsystem, name, subscribe, now, capacity, id, w);
  }

  /** No run of the server, against any peer, ever surprises an observer of any one subscription. */
  lemma {:induction false} ShapeOfRun(y: System, moves: seq<Move>, id: u16, w: Watch)
    requires ServerInv(y) && id != 0 && Agrees(y.session, id, w)
    ensures Observed(y, moves, id, w).Some?
    decreases |moves|
  {
    hide ServerInv, Observe, Agrees, Moved, SeenIn;
    assert y.Shaped() by { ServerShape(y); }
    if moves != [] {
      MovedInv(y, moves[0]);
      MoveObserved(y, moves[0], id, w);
      ShapeOfRun(Moved(y, moves[0]), moves[1..], id, Observe(w, SeenIn(y, moves[0], id)).value);
    }
  }

  lemma ShapeFromTheStart(moves: seq<Move>, id: u16)
    requires id != 0
    ensures ServerInv(Initial()) && Observed(Initial(), moves, id, Unborn).Some?
  {
    InitialInv();
    ShapeOfRun(Initial(), moves, id, Unborn);
  }
}
