/**
 What every session keeps: each subscription tracks one recorded generation, misses nothing of
 it, and stays silent until its frozen snapshot has been served to the end.
 */
module CacheDelivery {
  import opened Words
  import opened CacheModel
  import opened CacheWire
  import opened CacheSession
  import opened CacheHistory

  predicate Active(sub: Sub) { sub.id != 0 && !sub.pending && sub.paused == 0 }

  /** A subscription stands at a recorded revision, and what it has not seen leads to the present. */
  ghost predicate Tracks(m: Model, h: History, sub: Sub) {
    && 1 <= sub.handle <= DEVICES_MAX && sub.generation in h && h[sub.generation].handle == sub.handle
    && sub.revision < |h[sub.generation].views| && sub.cursor <= |m.log|
    && (sub.paused == 0 && Live(m, sub.handle) && m.devices[sub.handle - 1].generation == sub.generation ==>
          InStep(m, sub.handle, sub.generation, sub.revision, sub.cursor))
    && (sub.paused == 0 || (sub.paused == EXPIRED && sub.pending) || (sub.paused == PAUSED && !sub.pending))
  }

  /** The frozen snapshot is a recorded state. */
  ghost predicate Frozen(h: History, d: Device) {
    && d.generation in h && d.revision < |h[d.generation].views|
    && h[d.generation].views[d.revision] == ViewOf(d)
    && h[d.generation].subsystem == d.subsystem && h[d.generation].name == d.name
  }

  predicate AtSnapshot(s: Session, sub: Sub) {
    sub.generation == s.snapshot.generation && sub.revision == s.snapshot.revision
  }

  /** Every live subscription tracks its device; ids and handles are distinct and no id is ahead of the counter. */
  ghost predicate Tracked(m: Model, h: History, subs: seq<Sub>, lastSub: u16) {
    && |subs| == SUBSCRIPTIONS
    && (forall i :: 0 <= i < SUBSCRIPTIONS && subs[i].id != 0 ==> subs[i].id <= lastSub && Tracks(m, h, subs[i]))
    && (forall i, j :: 0 <= i < j < SUBSCRIPTIONS && subs[i].id != 0 && subs[j].id != 0 ==>
          subs[i].id != subs[j].id && subs[i].handle != subs[j].handle)
  }

  /** A snapshot under a live token is a recorded state, and exactly its own unfinished subscription is pending. */
  ghost predicate Linked(h: History, s: Session)
    requires |s.subs| == SUBSCRIPTIONS
  {
    && (s.token != 0 ==> Frozen(h, s.snapshot) && s.progress <= |s.snapshot.entries|)
    && (s.token != 0 && s.snapshotSub != 0 ==>
          var i := SubIndex(s.subs, s.snapshotSub);
          && i < SUBSCRIPTIONS && s.subs[i].paused != EXPIRED
          && (s.progress < |s.snapshot.entries| ==> s.subs[i].pending && s.subs[i].paused == 0))
    && (forall i :: 0 <= i < SUBSCRIPTIONS && s.subs[i].id != 0 && s.subs[i].pending && s.subs[i].paused == 0 ==>
          s.token != 0 && s.snapshotSub == s.subs[i].id && AtSnapshot(s, s.subs[i]))
  }

  ghost predicate Consistent(m: Model, h: History, s: Session) {
    Tracked(m, h, s.subs, s.lastSub) && Linked(h, s)
  }

  /** Between calls, a pending subscription also has pages left. */
  ghost predicate Settled(m: Model, h: History, s: Session) {
    && Consistent(m, h, s)
    && (forall i :: 0 <= i < SUBSCRIPTIONS && s.subs[i].id != 0 && s.subs[i].pending && s.subs[i].paused == 0 ==>
          s.progress < |s.snapshot.entries|)
  }

  /** A page shows a stretch of a recorded state. */
  ghost predicate PageTrue(h: History, p: Page) {
    && p.generation in h && p.revision < |h[p.generation].views|
    && var v := h[p.generation].views[p.revision];
       && p.presence == v.presence && p.total == |v.entries| && p.first + |p.entries| <= p.total
       && p.entries == v.entries[p.first..p.first + |p.entries|]
       && (|p.entries| == 0 ==> p.first == p.total)
  }

  /** The page comes from the snapshot the session still holds. */
  predicate FromSnapshot(s: Session, p: Page) {
    && p.sub == s.snapshotSub && p.token == s.token && p.generation == s.snapshot.generation
    && p.revision == s.snapshot.revision && p.captured == s.snapshot.capturedMs && p.total == |s.snapshot.entries|
    && p.presence == s.snapshot.presence
  }

  /** An event announces the recorded step out of the revision `r`. */
  ghost predicate Announces(h: History, g: nat, r: nat, e: Event) {
    && e.kind != RESYNC_KIND && e.generation == g && e.revision == r + 1
    && g in h && r + 1 < |h[g].views|
    && StepTo(h[g].views[r], h[g].views[r + 1], e.kind, e.presence, e.entries)
  }

  // ----- Registry steps

  lemma RegistryStepSettled(m: Model, h: History, after: Model, k: History, handle: u16, s: Session)
    requires Settled(m, h, s) && Faithful(m, h) && Grown(h, k)
    requires after == m || OneMore(m, after, handle) || Redefined(m, after, handle)
    ensures Settled(after, k, s)
  {
    forall i | 0 <= i < SUBSCRIPTIONS && s.subs[i].id != 0 ensures Tracks(after, k, s.subs[i]) {
      TracksStep(m, h, after, k, handle, s.subs[i]);
    }
    if s.token != 0 {
      ViewKept(h, k, s.snapshot.generation, s.snapshot.revision);
    }
  }

  lemma TracksStep(m: Model, h: History, after: Model, k: History, handle: u16, sub: Sub)
    requires Tracks(m, h, sub) && Faithful(m, h) && Grown(h, k)
    requires after == m || OneMore(m, after, handle) || Redefined(m, after, handle)
    ensures Tracks(after, k, sub)
  {
    if sub.paused == 0 && Live(after, sub.handle) && after.devices[sub.handle - 1].generation == sub.generation {
      if OneMore(m, after, handle) {
        InStepAppend(m, after, handle, sub.handle, sub.generation, sub.revision, sub.cursor);
      } else if Redefined(m, after, handle) {
        assert sub.handle != handle;
      }
    }
  }

  lemma ExpireSettled(m: Model, h: History, s: Session, now: u64)
    requires Settled(m, h, s)
    ensures Settled(m, h, Expire(s, now))
    ensures forall i :: 0 <= i < SUBSCRIPTIONS ==> SameUnlessPaused(s.subs[i], Expire(s, now).subs[i])
  {
  }

  predicate SameUnlessPaused(sub: Sub, after: Sub) {
    after.id == sub.id && (Active(after) ==> after == sub)
  }

  // ----- Requests

  lemma FitCountPositive(entries: seq<Entry>, room: nat)
    requires entries != [] && NormalEntry(entries[0]) && room >= MAX_ENTRY
    ensures FitCount(entries, room) >= 1
  {
  }

  /** A subscription became active by this page, which is the last of its own snapshot. */
  predicate ActivatedBy(sub: Sub, p: Page) {
    p.Next() == LAST_PAGE && p.sub == sub.id && p.generation == sub.generation && p.revision == sub.revision
  }

  lemma ServeTrue(m: Model, h: History, s: Session, first: nat, capacity: nat)
    requires Consistent(m, h, s) && s.token != 0
    ensures var r := ServePage(s, first, capacity);
      if r.status == OK then
        && r.page.Some? && PageTrue(h, r.page.value) && FromSnapshot(r.session, r.page.value)
        && r.page.value.first == first
        && r.session.token == s.token && r.session.snapshot == s.snapshot && r.session.snapshotSub == s.snapshotSub
        && r.session.lastSub == s.lastSub && r.session.lastToken == s.lastToken
        && (first == s.progress ==> r.session.progress == first + |r.page.value.entries|)
      else r.session == s && r.page == None
  {
    var r := ServePage(s, first, capacity);
    if r.status == OK {
      assert s.snapshot.entries[first..][..0] == [];
    }
  }

  lemma TrackedUpdate(m: Model, h: History, subs: seq<Sub>, lastSub: u16, i: nat, sub: Sub)
    requires Tracked(m, h, subs, lastSub) && i < SUBSCRIPTIONS
    requires sub.id == subs[i].id && sub.handle == subs[i].handle && (sub.id != 0 ==> Tracks(m, h, sub))
    ensures Tracked(m, h, subs[i := sub], lastSub)
  {
  }

  lemma ServeSettled(m: Model, h: History, s: Session, first: nat, capacity: nat)
    requires Consistent(m, h, s) && s.token != 0
    requires Settled(m, h, s) || first == s.progress
    requires ServePage(s, first, capacity).status == OK
    ensures Settled(m, h, ServePage(s, first, capacity).session)
  {
    hide FitCount, PageOf;
    var t := ServePage(s, first, capacity).session;
    var i := SubIndex(s.subs, s.snapshotSub);
    if i < SUBSCRIPTIONS {
      hide Tracks;
      SubIndexKept(s.subs, s.snapshotSub, t.subs);
      assert Tracks(m, h, s.subs[i].(pending := false)) by { TracksServed(m, h, s.subs[i]); }
      TrackedUpdate(m, h, s.subs, s.lastSub, i, t.subs[i]);
      assert t.subs == s.subs[i := t.subs[i]];
    }
    assert Linked(h, t);
  }

  lemma TracksServed(m: Model, h: History, sub: Sub)
    requires Tracks(m, h, sub) && sub.paused != EXPIRED
    ensures Tracks(m, h, sub.(pending := false))
  {
  }

  /** Rewriting a slot under the same id does not move anybody. */
  lemma {:induction false} SubIndexKept(subs: seq<Sub>, id: u16, after: seq<Sub>)
    requires |after| == |subs| && forall i :: 0 <= i < |subs| ==> after[i].id == subs[i].id
    ensures SubIndex(after, id) == SubIndex(subs, id)
  {
    if subs != [] && id != 0 && subs[0].id != id {
      SubIndexKept(subs[1..], id, after[1..]);
    }
  }

  /** Serving a page activates nobody but the owner of the snapshot, and only at its end. */
  lemma ServeActivates(m: Model, h: History, s: Session, first: nat, capacity: nat, i: nat)
    requires Consistent(m, h, s) && s.token != 0 && i < SUBSCRIPTIONS
    requires Settled(m, h, s) || first == s.progress
    ensures var r := ServePage(s, first, capacity);
      r.session.subs[i].id == s.subs[i].id
      && (Active(r.session.subs[i]) && r.session.subs[i] != s.subs[i] ==>
            r.status == OK && ActivatedBy(r.session.subs[i], r.page.value))
  {
  }

  /** What a request leaves behind: a settled session in which only the page's own last page activates. */
  ghost predicate Answered(m: Model, h: History, s: Session, r: Reply)
    requires |s.subs| == SUBSCRIPTIONS
  {
    && Settled(m, h, r.session)
    && r.session.lastSub >= s.lastSub
    && (r.status != OK ==> r.page == None)
    && (r.page.Some? ==> PageTrue(h, r.page.value) && FromSnapshot(r.session, r.page.value) && r.session.token != 0
                         && r.page.value.sub <= r.session.lastSub)
    && (forall i :: 0 <= i < SUBSCRIPTIONS && Active(r.session.subs[i]) ==>
          r.session.subs[i] == s.subs[i] || (r.page.Some? && ActivatedBy(r.session.subs[i], r.page.value)))
  }

  lemma DropAnswered(m: Model, h: History, s: Session, id: u16)
    requires Settled(m, h, s)
    ensures Answered(m, h, s, DropSub(s, id)) && DropSub(s, id).page == None
  {
    var r := DropSub(s, id);
    if r.status == OK {
      var i := SubIndex(s.subs, id);
      var t := r.session;
      assert t.subs == s.subs[i := FREE];
      if t.token != 0 && t.snapshotSub != 0 {
        SubIndexWithout(s.subs, i, s.snapshotSub);
        assert t.subs[SubIndex(s.subs, s.snapshotSub)] == s.subs[SubIndex(s.subs, s.snapshotSub)];
      }
      assert Consistent(m, h, t);
    }
  }

  lemma DropForgets(m: Model, h: History, s: Session, id: u16)
    requires Settled(m, h, s) && DropSub(s, id).status == OK
    ensures forall i :: 0 <= i < SUBSCRIPTIONS ==> DropSub(s, id).session.subs[i].id != id
  {
  }

  lemma {:induction false} SubIndexWithout(subs: seq<Sub>, i: nat, id: u16)
    requires i < |subs| && subs[i].id != id
    ensures SubIndex(subs[i := FREE], id) == SubIndex(subs, id)
  {
    if id != 0 && subs[0].id != id && i > 0 {
      assert subs[i := FREE][1..] == subs[1..][i - 1 := FREE];
      SubIndexWithout(subs[1..], i - 1, id);
    } else if id != 0 && i == 0 {
      assert subs[i := FREE][1..] == subs[1..];
    }
  }

  lemma ContinueAnswered(m: Model, h: History, s: Session, subsystem: Bytes, name: Bytes, token: u32, first: u16,
                         now: u64, capacity: nat)
    requires Settled(m, h, s) && Faithful(m, h) && token != 0
    ensures var r := ContinueSnapshot(s, subsystem, name, token, first, now, capacity);
      && Answered(m, h, s, r)
      && (r.status == OK ==> r.page.Some? && r.page.value.first == first && r.page.value.token == token
                             && (first == s.progress ==> r.session.progress == first + |r.page.value.entries|))
  {
    var r := ContinueSnapshot(s, subsystem, name, token, first, now, capacity);
    if r.status == OK {
      ServeTrue(m, h, s, first, capacity);
      ServeSettled(m, h, s, first, capacity);
      forall i | 0 <= i < SUBSCRIPTIONS ensures
        Active(r.session.subs[i]) ==> r.session.subs[i] == s.subs[i] || ActivatedBy(r.session.subs[i], r.page.value)
      {
        ServeActivates(m, h, s, first, capacity, i);
      }
      OwnerKnown(m, h, s);
    }
  }

  lemma OwnerKnown(m: Model, h: History, s: Session)
    requires Consistent(m, h, s) && s.token != 0
    ensures s.snapshotSub <= s.lastSub
  {
    if s.snapshotSub != 0 {
      var i := SubIndex(s.subs, s.snapshotSub);
      assert s.subs[i].id == s.snapshotSub;
    }
  }

  lemma CaptureTrue(m: Model, h: History, subsystem: Bytes, name: Bytes, now: u64)
    requires Faithful(m, h) && Snapshot(m, subsystem, name, now).Some?
    ensures var c := Snapshot(m, subsystem, name, now).value;
      && Frozen(h, c.device) && NormalCatalog(c.device.entries) && c.device.subsystem == subsystem && c.device.name == name
      && 1 <= c.handle <= DEVICES_MAX && Live(m, c.handle) && m.devices[c.handle - 1].generation == c.device.generation
      && h[c.device.generation].handle == c.handle
      && InStep(m, c.handle, c.device.generation, c.device.revision, c.cursor)
  {
    var c := Snapshot(m, subsystem, name, now).value;
    assert Kept(h, c.handle - 1, m.devices[c.handle - 1]);
    assert NormalDevice(m.devices[c.handle - 1]);
    assert Unseen(m.log, c.handle, |m.log|) == [];
  }

  /** Issuing a fresh token for a capture always yields its first page. */
  lemma IssueAnswered(m: Model, h: History, before: Session, s: Session, now: u64, capacity: nat)
    requires Faithful(m, h) && s.token == 0 && s.progress == 0 && capacity >= PAGE_HEADER + MAX_ENTRY
    requires Frozen(h, s.snapshot) && NormalCatalog(s.snapshot.entries)
    requires Consistent(m, h, Tokened(s, now)) && |before.subs| == SUBSCRIPTIONS && before.lastSub <= s.lastSub
    requires forall i :: 0 <= i < SUBSCRIPTIONS && Active(s.subs[i]) ==> s.subs[i] == before.subs[i]
    ensures var r := Issue(s, now, capacity);
      && Answered(m, h, before, r) && r.status == OK && r.page.Some? && r.page.value.first == 0
      && r.page.value.sub == s.snapshotSub && r.session.snapshot == s.snapshot
      && r.session.progress == |r.page.value.entries|
  {
    var t, r := Tokened(s, now), Issue(s, now, capacity);
    assert t.snapshot.entries[0..] == t.snapshot.entries;
    if t.snapshot.entries != [] {
      FitCountPositive(t.snapshot.entries, capacity - PAGE_HEADER);
    }
    ServeTrue(m, h, t, 0, capacity);
    ServeSettled(m, h, t, 0, capacity);
    OwnerKnown(m, h, t);
    forall i | 0 <= i < SUBSCRIPTIONS ensures
      Active(r.session.subs[i]) ==> r.session.subs[i] == before.subs[i] || ActivatedBy(r.session.subs[i], r.page.value)
    {
      ServeActivates(m, h, t, 0, capacity, i);
    }
  }

  /** The subscription a SUBSCRIBE creates or renews. */
  function Renewed(t: Session, c: Capture, i: nat): Session
    requires i < |t.subs| && (t.subs[i].id == 0 ==> t.lastSub < 0xFFFF)
  {
    var id := if t.subs[i].id == 0 then t.lastSub + 1 else t.subs[i].id;
    t.(subs := t.subs[i := Sub(id, c.handle, c.device.generation, c.device.revision, c.cursor, true, 0)],
       lastSub := if t.subs[i].id == 0 then id else t.lastSub, snapshotSub := id)
  }

  lemma RenewedTracked(m: Model, h: History, t: Session, c: Capture, i: nat)
    requires Tracked(m, h, t.subs, t.lastSub) && i == SlotFor(t.subs, c.handle) && i < SUBSCRIPTIONS
    requires t.subs[i].id == 0 ==> t.lastSub < 0xFFFF
    requires 1 <= c.handle <= DEVICES_MAX && Frozen(h, c.device) && h[c.device.generation].handle == c.handle
    requires InStep(m, c.handle, c.device.generation, c.device.revision, c.cursor)
    ensures Tracked(m, h, Renewed(t, c, i).subs, Renewed(t, c, i).lastSub)
  {
    var r := Renewed(t, c, i);
    assert Tracks(m, h, r.subs[i]);
  }

  lemma {:induction false} SubIndexOf(subs: seq<Sub>, i: nat)
    requires i < |subs| && subs[i].id != 0 && forall j :: 0 <= j < |subs| && j != i ==> subs[j].id != subs[i].id
    ensures SubIndex(subs, subs[i].id) == i
  {
    if i > 0 {
      assert subs[1..][i - 1] == subs[i];
      forall j | 0 <= j < |subs| - 1 && j != i - 1 ensures subs[1..][j].id != subs[i].id {
        assert subs[1..][j] == subs[j + 1];
      }
      SubIndexOf(subs[1..], i - 1);
    }
  }

  lemma RenewedLinked(m: Model, h: History, t: Session, c: Capture, i: nat, now: u64)
    requires Tracked(m, h, t.subs, t.lastSub) && i == SlotFor(t.subs, c.handle) && i < SUBSCRIPTIONS
    requires t.subs[i].id == 0 ==> t.lastSub < 0xFFFF
    requires Tracked(m, h, Renewed(t, c, i).subs, Renewed(t, c, i).lastSub)
    requires t.snapshot == c.device && Frozen(h, c.device) && t.progress == 0
    requires forall j :: 0 <= j < SUBSCRIPTIONS && t.subs[j].id != 0 && t.subs[j].pending ==> t.subs[j].paused != 0
    ensures Linked(h, Tokened(Renewed(t, c, i), now))
  {
    hide Tracks;
    var r := Tokened(Renewed(t, c, i), now);
    SubIndexOf(r.subs, i);
  }

  /** A first page of the target's present state, kept for the pages that follow. */
  predicate FirstPage(r: Reply, subsystem: Bytes, name: Bytes, subscribe: bool) {
    && r.page.Some? && r.page.value.first == 0 && (r.page.value.sub != 0 <==> subscribe)
    && r.session.snapshot.subsystem == subsystem && r.session.snapshot.name == name
    && r.session.progress == |r.page.value.entries|
    && OwnerAt(r.session.subs, r.page.value)
  }

  lemma PlainAnswered(m: Model, h: History, s: Session, subsystem: Bytes, name: Bytes, now: u64, capacity: nat)
    requires Settled(m, h, s) && Faithful(m, h) && capacity >= PAGE_HEADER + MAX_ENTRY
    requires Snapshot(m, subsystem, name, now).Some?
    requires forall j :: 0 <= j < SUBSCRIPTIONS && s.subs[j].id != 0 && s.subs[j].pending ==> s.subs[j].paused != 0
    ensures var c := Snapshot(m, subsystem, name, now).value;
      var r := Issue(s.(snapshot := c.device, token := 0, snapshotSub := 0, progress := 0), now, capacity);
      Answered(m, h, s, r) && r.status == OK && FirstPage(r, subsystem, name, false)
  {
    CaptureTrue(m, h, subsystem, name, now);
    hide Tracks, InStep, Faithful, Frozen, Snapshot, Issue;
    var c := Snapshot(m, subsystem, name, now).value;
    var t := s.(snapshot := c.device, token := 0, snapshotSub := 0, progress := 0);
    IssueAnswered(m, h, s, t, now, capacity);
    IssueOwner(t, now, capacity);
  }

  lemma IssueOwner(s: Session, now: u64, capacity: nat)
    requires |s.subs| == SUBSCRIPTIONS
    requires forall i :: 0 <= i < SUBSCRIPTIONS && s.subs[i].id != 0 && s.subs[i].id == s.snapshotSub ==> AtSnapshot(s, s.subs[i])
    ensures var r := Issue(s, now, capacity); r.page.Some? ==> OwnerAt(r.session.subs, r.page.value)
  {
    ServeOwner(Tokened(s, now), 0, capacity);
  }

  lemma SubscribedAnswered(m: Model, h: History, s: Session, subsystem: Bytes, name: Bytes, now: u64, capacity: nat,
                           i: nat)
    requires Settled(m, h, s) && Faithful(m, h) && capacity >= PAGE_HEADER + MAX_ENTRY
    requires Snapshot(m, subsystem, name, now).Some?
    requires forall j :: 0 <= j < SUBSCRIPTIONS && s.subs[j].id != 0 && s.subs[j].pending ==> s.subs[j].paused != 0
    requires i == SlotFor(s.subs, Snapshot(m, subsystem, name, now).value.handle) && i < SUBSCRIPTIONS
    requires s.subs[i].id == 0 ==> s.lastSub < 0xFFFF
    ensures var c := Snapshot(m, subsystem, name, now).value;
      var t := s.(snapshot := c.device, token := 0, snapshotSub := 0, progress := 0);
      var r := Issue(Renewed(t, c, i), now, capacity);
      Answered(m, h, s, r) && r.status == OK && FirstPage(r, subsystem, name, true)
  {
    CaptureTrue(m, h, subsystem, name, now);
    var c := Snapshot(m, subsystem, name, now).value;
    var t := s.(snapshot := c.device, token := 0, snapshotSub := 0, progress := 0);
    RenewedTracked(m, h, t, c, i);
    RenewedLinked(m, h, t, c, i, now);
    hide Tracks, InStep, Faithful, Frozen, Snapshot, Issue, SlotFor;
    IssueAnswered(m, h, s, Renewed(t, c, i), now, capacity);
    IssueOwner(Renewed(t, c, i), now, capacity);
  }

  /** What a new snapshot request leaves behind. */
  lemma StartAnswered(m: Model, h: History, s: Session, subsystem: Bytes, name: Bytes, subscribe: bool, now: u64,
                      capacity: nat)
    requires Settled(m, h, s) && Faithful(m, h)
    ensures var r := StartSnapshot(m, s, subsystem, name, subscribe, now, capacity);
      Answered(m, h, s, r) && (r.status == OK ==> FirstPage(r, subsystem, name, subscribe))
  {
    assert |m.devices| == DEVICES_MAX;
    hide Tracks, InStep, Faithful, Frozen, Issue, Snapshot;
    var p := SubIndex(s.subs, s.snapshotSub);
    if !(s.token != 0 && p < SUBSCRIPTIONS && s.subs[p].pending) && capacity >= PAGE_HEADER + MAX_ENTRY
       && Snapshot(m, subsystem, name, now).Some? {
      NobodyPending(m, h, s);
      var c := Snapshot(m, subsystem, name, now).value;
      if !subscribe {
        PlainAnswered(m, h, s, subsystem, name, now, capacity);
      } else {
        var i := SlotFor(s.subs, c.handle);
        if i < SUBSCRIPTIONS && (s.subs[i].id == 0 ==> s.lastSub < 0xFFFF) {
          SubscribedAnswered(m, h, s, subsystem, name, now, capacity, i);
        }
      }
    }
  }

  lemma NobodyPending(m: Model, h: History, s: Session)
    requires Settled(m, h, s)
    requires var p := SubIndex(s.subs, s.snapshotSub); !(s.token != 0 && p < SUBSCRIPTIONS && s.subs[p].pending)
    ensures forall j :: 0 <= j < SUBSCRIPTIONS && s.subs[j].id != 0 && s.subs[j].pending ==> s.subs[j].paused != 0
  {
  }

  lemma ExecuteAnswered(m: Model, h: History, s: Session, command: Command, now: u64, capacity: nat)
    requires Settled(m, h, s) && Faithful(m, h)
    requires command.Refused? ==> command.status != OK
    requires command.Continue? ==> command.token != 0
    ensures Answered(m, h, s, Execute(m, s, command, now, capacity))
  {
    match command
    case Refused(_) =>
    case Drop(id) => DropAnswered(m, h, s, id);
    case Continue(subsystem, name, token, first) => ContinueAnswered(m, h, s, subsystem, name, token, first, now, capacity);
    case Start(subsystem, name, subscribe) => StartAnswered(m, h, s, subsystem, name, subscribe, now, capacity);
  }

  /** Whoever owns the page's snapshot and is active stands exactly at it. */
  predicate OwnerAt(subs: seq<Sub>, p: Page) {
    forall i :: 0 <= i < |subs| && subs[i].id != 0 && subs[i].id == p.sub && Active(subs[i]) ==>
      subs[i].generation == p.generation && subs[i].revision == p.revision
  }

  lemma ServeOwner(s: Session, first: nat, capacity: nat)
    requires |s.subs| == SUBSCRIPTIONS
    requires forall i :: 0 <= i < SUBSCRIPTIONS && s.subs[i].id != 0 && s.subs[i].id == s.snapshotSub ==> AtSnapshot(s, s.subs[i])
    ensures var r := ServePage(s, first, capacity); r.page.Some? ==> OwnerAt(r.session.subs, r.page.value)
  {
    hide FitCount;
  }

  lemma ContinueOwner(m: Model, h: History, s: Session, subsystem: Bytes, name: Bytes, token: u32, first: u16,
                      now: u64, capacity: nat)
    requires Settled(m, h, s) && token != 0 && first == s.progress < |s.snapshot.entries|
    ensures var r := ContinueSnapshot(s, subsystem, name, token, first, now, capacity);
      r.page.Some? ==> OwnerAt(r.session.subs, r.page.value)
  {
    hide Tracks;
    if token == s.token {
      forall i | 0 <= i < SUBSCRIPTIONS && s.subs[i].id != 0 && s.subs[i].id == s.snapshotSub
        ensures AtSnapshot(s, s.subs[i])
      {
        var k := SubIndex(s.subs, s.snapshotSub);
        assert s.subs[k].id == s.subs[i].id;
      }
      ServeOwner(s, first, capacity);
    }
  }

  // ----- Events

  /** What one poll of a live subscription does to it. */
  ghost predicate PollKeeps(m: Model, h: History, sub: Sub, p: Polled) {
    && p.sub.id == sub.id && p.sub.handle == sub.handle
    && Tracks(m, h, p.sub)
    && (p.Quiet? ==> p.sub == sub.(cursor := p.sub.cursor))
    && (p.Ready? ==> p.event.sub == sub.id)
    && (p.Ready? && p.event.kind == RESYNC_KIND ==> p.sub.paused == PAUSED && !p.sub.pending
                                                    && p.event.revision == sub.revision)
    && (p.Ready? && p.event.kind != RESYNC_KIND ==>
          Active(sub) && p.sub == sub.(cursor := p.sub.cursor, revision := sub.revision + 1)
          && Announces(h, sub.generation, sub.revision, p.event))
  }

  /** The guard on revision gaps never fires: the next unseen change is always the next revision. */
  lemma NextIsContiguous(m: Model, h: History, sub: Sub)
    requires Tracks(m, h, sub) && Faithful(m, h) && Active(sub)
    ensures match Next(m, sub.handle, sub.generation, sub.cursor)
            case Delivered(c, after) =>
              && c.revision == sub.revision + 1 && c.generation == sub.generation && Recorded(h, c)
              && after <= |m.log| && InStep(m, sub.handle, sub.generation, c.revision, after)
            case CaughtUp =>
              && m.devices[sub.handle - 1].generation == sub.generation
              && m.devices[sub.handle - 1].revision == sub.revision
              && InStep(m, sub.handle, sub.generation, sub.revision, |m.log|)
            case Resync(reason) => reason == LOST || reason == RECONFIGURED
  {
    match Next(m, sub.handle, sub.generation, sub.cursor)
    case Resync(_) =>
    case CaughtUp => InStepCaughtUp(m, sub.handle, sub.generation, sub.revision, sub.cursor);
    case Delivered(c, after) => InStepAdvance(m, sub.handle, sub.generation, sub.revision, sub.cursor);
  }

  lemma InStepCaughtUp(m: Model, handle: u16, generation: nat, revision: nat, cursor: nat)
    requires InStep(m, handle, generation, revision, cursor) && NextIn(m.log, handle, cursor).CaughtUp?
    ensures m.devices[handle - 1].revision == revision && InStep(m, handle, generation, revision, |m.log|)
  {
    NextTakesFirstUnseen(m.log, handle, cursor);
    assert Unseen(m.log, handle, |m.log|) == [];
  }

  lemma InStepAdvance(m: Model, handle: u16, generation: nat, revision: nat, cursor: nat)
    requires InStep(m, handle, generation, revision, cursor) && NextIn(m.log, handle, cursor).Delivered?
    ensures var n := NextIn(m.log, handle, cursor);
      && n.change.revision == revision + 1 && n.change.generation == generation && n.change in m.log
      && InStep(m, handle, generation, revision + 1, n.cursor)
  {
    NextTakesFirstUnseen(m.log, handle, cursor);
    var n := NextIn(m.log, handle, cursor);
    var u, rest := Unseen(m.log, handle, cursor), Unseen(m.log, handle, n.cursor);
    assert u[0] == n.change;
    forall k | 0 <= k < |rest|
      ensures rest[k].generation == generation && rest[k].revision == revision + 2 + k && rest[k] in m.log
    {
      assert u[k + 1] == rest[k];
    }
  }

  lemma PollSettles(m: Model, h: History, sub: Sub, now: u64)
    requires sub.id != 0 && Tracks(m, h, sub) && Faithful(m, h)
    ensures PollKeeps(m, h, sub, Poll(m, sub, now))
  {
    if Active(sub) {
      NextIsContiguous(m, h, sub);
    }
  }

  /** What emitting `e`, or nothing, did to one subscription. */
  predicate EmitStep(sub: Sub, after: Sub, e: Option<Event>) {
    && after.id == sub.id
    && (Active(after) ==>
          && Active(sub) && after.generation == sub.generation
          && (if e.Some? && e.value.sub == sub.id
              then e.value.kind != RESYNC_KIND && after.revision == sub.revision + 1
              else after.revision == sub.revision))
  }

  /** The event is a resynchronization notice, or the next step of an active subscription. */
  ghost predicate Emitted(h: History, s: Session, e: Event) {
    exists i :: 0 <= i < |s.subs| && s.subs[i].id != 0 && s.subs[i].id == e.sub &&
      (e.kind != RESYNC_KIND ==> Active(s.subs[i]) && Announces(h, s.subs[i].generation, s.subs[i].revision, e))
  }

  /** The session after polling slot `k`. */
  function Polled1(s: Session, k: nat, sub: Sub): Session
    requires k < |s.subs|
  {
    s.(roundRobin := (s.roundRobin + 1) % 0x1_0000, subs := s.subs[k := sub])
  }

  function EventOf(p: Polled): Option<Event> { if p.Ready? then Some(p.event) else None }

  lemma PolledSettled(m: Model, h: History, s: Session, k: nat, now: u64)
    requires Settled(m, h, s) && Faithful(m, h) && k < SUBSCRIPTIONS
    ensures var p := Poll(m, s.subs[k], now);
      && Settled(m, h, Polled1(s, k, p.sub))
      && (p.Ready? ==> Emitted(h, s, p.event))
      && forall i :: 0 <= i < SUBSCRIPTIONS ==> EmitStep(s.subs[i], Polled1(s, k, p.sub).subs[i], EventOf(p))
  {
    var sub := s.subs[k];
    var p := Poll(m, sub, now);
    if sub.id != 0 {
      PollSettles(m, h, sub, now);
      hide Tracks, Poll, Faithful, Announces;
      TrackedUpdate(m, h, s.subs, s.lastSub, k, p.sub);
      PolledLinked(m, h, s, k, p);
      PolledEmits(m, h, s, k, p);
    } else {
      assert s.subs[k := sub] == s.subs;
    }
  }

  lemma PolledEmits(m: Model, h: History, s: Session, k: nat, p: Polled)
    requires |s.subs| == SUBSCRIPTIONS && k < SUBSCRIPTIONS && s.subs[k].id != 0 && PollKeeps(m, h, s.subs[k], p)
    requires forall i :: 0 <= i < SUBSCRIPTIONS && i != k ==> s.subs[i].id != s.subs[k].id
    ensures p.Ready? ==> Emitted(h, s, p.event)
    ensures forall i :: 0 <= i < SUBSCRIPTIONS ==> EmitStep(s.subs[i], Polled1(s, k, p.sub).subs[i], EventOf(p))
  {
    hide Tracks, Announces;
  }

  lemma PolledLinked(m: Model, h: History, s: Session, k: nat, p: Polled)
    requires Settled(m, h, s) && k < SUBSCRIPTIONS && s.subs[k].id != 0 && PollKeeps(m, h, s.subs[k], p)
    requires p.Ready? && p.event.kind == RESYNC_KIND ==> Active(s.subs[k]) || s.subs[k].paused == EXPIRED
    ensures Linked(h, Polled1(s, k, p.sub))
    ensures forall i :: 0 <= i < SUBSCRIPTIONS && i != k ==> Polled1(s, k, p.sub).subs[i] == s.subs[i]
  {
    hide Tracks, Announces;
    SubIndexKept(s.subs, s.snapshotSub, Polled1(s, k, p.sub).subs);
  }

  lemma {:induction false} ScanSettled(m: Model, h: History, s: Session, now: u64, tries: nat)
    requires Settled(m, h, s) && Faithful(m, h)
    ensures var (t, e) := Scan(m, s, now, tries);
      && Settled(m, h, t) && t.lastSub == s.lastSub && t.(subs := s.subs, roundRobin := s.roundRobin) == s
      && (e.Some? ==> Emitted(h, s, e.value))
      && forall i :: 0 <= i < SUBSCRIPTIONS ==> EmitStep(s.subs[i], t.subs[i], e)
    decreases tries
  {
    if tries > 0 {
      var k := s.roundRobin % SUBSCRIPTIONS;
      var p := Poll(m, s.subs[k], now);
      PolledSettled(m, h, s, k, now);
      if p.Quiet? {
        ScanSettled(m, h, Polled1(s, k, p.sub), now, tries - 1);
      }
    }
  }

  /** Every event a client will be sent passes the client's own checks. */
  lemma PollNormal(m: Model, h: History, sub: Sub, now: u64)
    requires sub.id != 0 && Tracks(m, h, sub) && Faithful(m, h) && |m.log| < U64_LIMIT - 1
    ensures Poll(m, sub, now).Ready? ==> NormalEvent(Poll(m, sub, now).event)
  {
    var p := Poll(m, sub, now);
    if p.Ready? {
      assert NormalPast(h[sub.generation], |m.log|);
      PollSettles(m, h, sub, now);
      if p.event.kind != RESYNC_KIND {
        AnnouncedNormal(m, h, sub.generation, sub.revision, p.event);
      }
      hide Tracks, Next, PollKeeps, Faithful;
      Limits();
      EventHeld(p.event);
    }
  }

  lemma EventHeld(e: Event)
    requires e.kind < 0x100 && e.sub < 0x1_0000 && e.generation < 0x1_0000_0000 && e.revision < U64_LIMIT
    requires e.time < U64_LIMIT && e.presence < 0x100 && e.reason < 0x100 && |e.entries| < 0x1_0000
    ensures Held(EVENT_LAYOUT, e.Fields())
  {
    Limits();
  }

  lemma AnnouncedNormal(m: Model, h: History, g: nat, r: nat, e: Event)
    requires Faithful(m, h) && Announces(h, g, r, e)
    ensures NormalResources(e.entries) && e.presence <= PRESENCE_UNAVAILABLE && (e.kind == CHANGE || e.kind == PRESENCE)
    ensures |e.entries| == (if e.kind == CHANGE then 1 else 0)
  {
    assert NormalPast(h[g], |m.log|);
    assert NormalView(h[g].views[r + 1]);
    if e.kind == CHANGE {
      var before, after := h[g].views[r].entries, h[g].views[r + 1].entries;
      var i :| 0 <= i < |before| && after == before[i := e.entries[0]];
      assert after[i] == e.entries[0];
    }
  }

  lemma SettledShape(m: Model, h: History, s: Session)
    requires Settled(m, h, s)
    ensures |s.subs| == SUBSCRIPTIONS
  {
    hide Tracks;
  }

  /** Only a slot in use has something to say, and it tracks its device. */
  lemma PollShape(m: Model, h: History, s: Session, k: nat, now: u64)
    requires Settled(m, h, s) && k < SUBSCRIPTIONS == |s.subs|
    ensures s.subs[k].id == 0 ==> !Poll(m, s.subs[k], now).Ready?
    ensures s.subs[k].id != 0 ==> Tracks(m, h, s.subs[k])
    ensures Polled1(s, k, Poll(m, s.subs[k], now).sub) ==
            s.(roundRobin := (s.roundRobin + 1) % 0x1_0000, subs := s.subs[k := Poll(m, s.subs[k], now).sub])
  {
    hide Tracks;
  }

  lemma {:induction false} ScanNormal(m: Model, h: History, s: Session, now: u64, tries: nat)
    requires Settled(m, h, s) && Faithful(m, h) && |m.log| < U64_LIMIT - 1
    ensures var (t, e) := Scan(m, s, now, tries); e.Some? ==> NormalEvent(e.value)
    decreases tries
  {
    hide Settled, Faithful, NormalEvent, Tracks, Poll, Emitted, EmitStep, Polled1;
    SettledShape(m, h, s);
    if tries > 0 {
      var k := s.roundRobin % SUBSCRIPTIONS;
      var p := Poll(m, s.subs[k], now);
      PollShape(m, h, s, k, now);
      if s.subs[k].id != 0 {
        PollNormal(m, h, s.subs[k], now);
      }
      PolledSettled(m, h, s, k, now);
      if p.Quiet? {
        ScanNormal(m, h, Polled1(s, k, p.sub), now, tries - 1);
      }
    }
  }
}
