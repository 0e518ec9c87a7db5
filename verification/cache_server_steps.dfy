/**
 The replication invariant across the server's steps: emitting an event and answering a request.
 */
module CacheServerSteps {
  import opened Words
  import opened CacheModel
  import opened CacheWire
  import opened CacheSession
  import opened CacheHistory
  import opened CacheDelivery
  import opened CacheClient
  import opened CacheSystem
  import opened CacheReplication

  /** The same snapshot as before, or none any more. */
  predicate Aged(s: Session, t: Session) {
    && t.lastSub == s.lastSub
    && (t.token != 0 ==> t.token == s.token && t.snapshot == s.snapshot && t.snapshotSub == s.snapshotSub
                         && t.progress == s.progress)
  }

  lemma EmitSettled(m: Model, h: History, s: Session, now: u64, capacity: nat)
    requires Settled(m, h, s) && Faithful(m, h) && |m.log| < U64_LIMIT - 1
    ensures var (t, e) := Emit(m, s, now, capacity);
      && Settled(m, h, t) && Aged(s, t)
      && (e.Some? ==> NormalEvent(e.value) && e.value.sub <= s.lastSub && Emitted(h, s, e.value))
      && forall i :: 0 <= i < SUBSCRIPTIONS ==> EmitStep(s.subs[i], t.subs[i], e)
  {
    var a := Expire(s, now);
    ExpireSettled(m, h, s, now);
    if capacity >= EVENT_HEADER + MAX_ENTRY {
      hide Tracks, Poll, Faithful, Linked;
      ScanSettled(m, h, a, now, SUBSCRIPTIONS);
      ScanNormal(m, h, a, now, SUBSCRIPTIONS);
      var (t, e) := Scan(m, a, now, SUBSCRIPTIONS);
      forall i | 0 <= i < SUBSCRIPTIONS ensures EmitStep(s.subs[i], t.subs[i], e) {
        assert SameUnlessPaused(s.subs[i], a.subs[i]) && EmitStep(a.subs[i], t.subs[i], e);
      }
      if e.Some? {
        var i :| 0 <= i < |a.subs| && a.subs[i].id != 0 && a.subs[i].id == e.value.sub &&
          (e.value.kind != RESYNC_KIND ==> Active(a.subs[i]) && Announces(h, a.subs[i].generation, a.subs[i].revision, e.value));
        assert SameUnlessPaused(s.subs[i], a.subs[i]);
        assert Emitted(h, s, e.value);
      }
    }
  }

  lemma RpcAged(y: System, z: System)
    requires RpcOk(y) && Aged(y.session, z.session) && |z.session.subs| == |y.session.subs|
    requires forall i :: 0 <= i < |y.session.subs| ==> z.session.subs[i].id == y.session.subs[i].id
    requires z.history == y.history && z.client == y.client && z.call == y.call
    requires Answers(z.channel) == Answers(y.channel)
    requires Answers(y.channel) > 0 ==> FirstAnswer(z.channel) == FirstAnswer(y.channel)
    requires y.client.rpc.Dropping? && Answering(y) && FirstAnswer(y.channel).status == OK ==> Of(Post(z.channel), y.client.rpc.id) == []
    ensures RpcOk(z)
  {
  }

  lemma NotifyInv(y: System, now: u64, capacity: nat)
    requires Inv(y)
    ensures Inv(StepNotify(y, now, capacity))
  {
    var (t, e) := Emit(y.model, y.session, now, capacity);
    EmitSettled(y.model, y.history, y.session, now, capacity);
    var z := StepNotify(y, now, capacity);
    if y.client.health == Running {
      hide Settled, Emit, Faithful, Truthful;
      if e.Some? {
        ChannelAppend(y.channel, Notice(e.value));
        NoticeLinks(y, z, e.value);
      } else {
        assert z.channel == y.channel;
        forall id ensures Link(z, id) { SilentLink(y, z, id); }
        RpcAged(y, z);
      }
    }
  }

  lemma SilentLink(y: System, z: System, id: nat)
    requires Link(y, id) && z == y.(session := z.session) && |z.session.subs| == |y.session.subs|
    requires forall i :: 0 <= i < |y.session.subs| ==> EmitStep(y.session.subs[i], z.session.subs[i], None)
    ensures Link(z, id)
  {
    if id != 0 && Base(y, id).Some? {
      var (g, r) := Base(y, id).value;
      assert LeadsTo(z.history, z.session.subs, id, g, r, Tail(z, id));
    }
  }

  lemma NoticeLinks(y: System, z: System, e: Event)
    requires Flowing(y) && |y.session.subs| == SUBSCRIPTIONS == |z.session.subs|
    requires z == y.(session := z.session, channel := y.channel + [Notice(e)]) && Aged(y.session, z.session)
    requires NormalEvent(e) && e.sub <= y.session.lastSub && Emitted(y.history, y.session, e)
    requires forall i :: 0 <= i < SUBSCRIPTIONS ==> EmitStep(y.session.subs[i], z.session.subs[i], Some(e))
    ensures Flowing(z)
  {
    ChannelAppend(y.channel, Notice(e));
    forall id ensures Link(z, id) { NoticeLink(y, z, e, id); }
    if y.client.rpc.Dropping? && Answering(y) && FirstAnswer(y.channel).status == OK {
      var i :| 0 <= i < |y.session.subs| && y.session.subs[i].id != 0 && y.session.subs[i].id == e.sub;
      OfAppend(Post(y.channel), [e], y.client.rpc.id);
      assert Of([e], y.client.rpc.id) == [];
    }
    RpcAged(y, z);
  }

  lemma NoticeTail(y: System, z: System, e: Event, id: nat)
    requires z == y.(session := z.session, channel := y.channel + [Notice(e)])
    ensures Completing(z, id) == Completing(y, id) && Base(z, id) == Base(y, id)
    ensures Tail(z, id) == Tail(y, id) + if e.sub == id then [e] else []
  {
    var own := if e.sub == id then [e] else [];
    assert Of([e], id) == own;
    hide Of, Pre, Post, Answers, FirstAnswer, Events;
    ChannelAppend(y.channel, Notice(e));
    OfAppend(Post(y.channel), [e], id);
    OfAppend(Pre(y.channel), [e], id);
    OfNone(id);
    LastJoins(Of(y.client.queue, id), Of(Pre(y.channel), id), Of(Post(y.channel), id), own);
  }

  lemma OfNone(id: nat)
    ensures Of([], id) == []
  {
  }

  lemma LastJoins(a: seq<Event>, b: seq<Event>, c: seq<Event>, d: seq<Event>)
    ensures a + (b + (c + d)) == a + (b + c) + d
    ensures c == [] ==> a + ((b + d) + c) == a + (b + c) + d
  {
  }

  lemma NoticeLink(y: System, z: System, e: Event, id: nat)
    requires Link(y, id) && |y.session.subs| == SUBSCRIPTIONS == |z.session.subs|
    requires z == y.(session := z.session, channel := y.channel + [Notice(e)])
    requires Emitted(y.history, y.session, e)
    requires forall i :: 0 <= i < SUBSCRIPTIONS ==> EmitStep(y.session.subs[i], z.session.subs[i], Some(e))
    ensures Link(z, id)
  {
    NoticeTail(y, z, e, id);
    if id != 0 && Base(y, id).Some? {
      var (g, r) := Base(y, id).value;
      var tail := Tail(y, id);
      if e.sub == id {
        LeadsOn(y.history, y.session, z.session, id, g, r, tail, e);
      } else {
        assert tail + [] == tail;
        assert LeadsTo(z.history, z.session.subs, id, g, r, tail);
      }
    }
  }

  lemma LeadsOn(h: History, s: Session, t: Session, id: nat, g: nat, r: nat, tail: seq<Event>, e: Event)
    requires LeadsTo(h, s.subs, id, g, r, tail) && e.sub == id && Emitted(h, s, e)
    requires |s.subs| == SUBSCRIPTIONS == |t.subs|
    requires forall i :: 0 <= i < SUBSCRIPTIONS ==> EmitStep(s.subs[i], t.subs[i], Some(e))
    ensures LeadsTo(h, t.subs, id, g, r, tail + [e])
  {
    ChainAppend(h, g, r, tail, e);
    assert (tail + [e])[|tail|] == e;
    if Alive(tail + [e]) {
      forall i | 0 <= i < |tail| ensures tail[i].kind != RESYNC_KIND { assert (tail + [e])[i] == tail[i]; }
      forall i | 0 <= i < SUBSCRIPTIONS && t.subs[i].id == id && Active(t.subs[i])
        ensures t.subs[i].generation == g && t.subs[i].revision == r + |tail + [e]|
      {
        assert EmitStep(s.subs[i], t.subs[i], Some(e));
      }
    }
  }

  // ----- Answering a request

  /** What the reply to the outstanding call guarantees. */
  ghost predicate Replied(y: System, r: Reply) {
    && |y.session.subs| == SUBSCRIPTIONS
    && Answered(y.model, y.history, y.session, r)
    && (r.page.Some? && r.page.value.Next() == LAST_PAGE ==> OwnerAt(r.session.subs, r.page.value))
    && RpcOk(y.(session := r.session, call := None, channel := y.channel + [Answer(r.status, r.page)]))
  }

  lemma AnsweredThroughExpire(m: Model, h: History, s: Session, now: u64, r: Reply)
    requires Settled(m, h, s) && Answered(m, h, Expire(s, now), r)
    ensures Answered(m, h, s, r)
  {
    ExpireSettled(m, h, s, now);
    forall i | 0 <= i < SUBSCRIPTIONS && Active(r.session.subs[i])
      ensures r.session.subs[i] == s.subs[i] || (r.page.Some? && ActivatedBy(r.session.subs[i], r.page.value))
    {
      assert SameUnlessPaused(s.subs[i], Expire(s, now).subs[i]);
    }
  }

  lemma PageNormal(m: Model, h: History, s: Session, p: Page)
    requires Faithful(m, h) && |m.log| < U64_LIMIT - 1 && s.token != 0
    requires PageTrue(h, p) && FromSnapshot(s, p) && p.sub <= s.lastSub
    ensures NormalPage(p)
  {
    var v := h[p.generation].views[p.revision];
    assert NormalPast(h[p.generation], |m.log|);
    assert NormalView(v);
    forall i | 0 <= i < |p.entries| ensures NormalEntry(p.entries[i]) { assert p.entries[i] == v.entries[p.first + i]; }
    forall i, j | 0 <= i < j < |p.entries| ensures p.entries[i].id != p.entries[j].id {
      assert v.entries[p.first + i].id != v.entries[p.first + j].id;
    }
    PageHeld(p);
  }

  lemma PageHeld(p: Page)
    requires p.sub < 0x1_0000 && p.token < 0x1_0000_0000 && p.generation < 0x1_0000_0000 && p.revision < U64_LIMIT
    requires p.captured < U64_LIMIT && p.total <= RESOURCES_MAX && p.first + |p.entries| <= p.total && p.presence < 0x100
    ensures Held(PAGE_LAYOUT, p.Fields())
  {
    Limits();
  }

  /** A served page agrees with the record and with the names the client asked for. */
  lemma ServedHead(y: System, t: Session, p: Page)
    requires y.client.rpc.Paging? && Faithful(y.model, y.history) && |y.model.log| < U64_LIMIT - 1
    requires |t.subs| == SUBSCRIPTIONS && Linked(y.history, t) && t.token != 0
    requires PageTrue(y.history, p) && FromSnapshot(t, p) && p.sub <= t.lastSub && (p.sub != 0 <==> y.client.rpc.subscribe)
    requires t.snapshot.subsystem == y.client.rpc.subsystem && t.snapshot.name == y.client.rpc.name
    ensures HeadOk(y.history, t, y.client.rpc, p) && NormalPage(p)
  {
    PageNormal(y.model, y.history, t, p);
  }

  lemma ReplyToDrop(y: System, now: u64, capacity: nat)
    requires Inv(y) && Flowing(y) && y.client.rpc.Dropping? && y.call.Some?
    ensures Replied(y, Request(y.model, y.session, y.call.value.opcode, y.call.value.body, now, capacity))
  {
    var id := y.client.rpc.id;
    var e := Expire(y.session, now);
    DropUnderstood(id);
    ExpireSettled(y.model, y.history, y.session, now);
    DropAnswered(y.model, y.history, e, id);
    var r := DropSub(e, id);
    AnsweredThroughExpire(y.model, y.history, y.session, now, r);
    ChannelAppend(y.channel, Answer(r.status, r.page));
    if r.status == OK {
      DropForgets(y.model, y.history, e, id);
    }
  }

  /** The client's bookkeeping after a reply that carries a page, or refuses one. */
  lemma PagingOk(y: System, r: Reply)
    requires y.client.rpc.Paging? && RpcOk(y) && Waiting(y, NextCall(y.client.rpc))
    requires PartOk(y.history, r.session, y.client.rpc)
    requires r.status == OK ==> r.page.Some? && PageFits(y.history, r.session, y.client.rpc, r.page.value)
    ensures RpcOk(y.(session := r.session, call := None, channel := y.channel + [Answer(r.status, r.page)]))
  {
    ChannelAppend(y.channel, Answer(r.status, r.page));
    hide PartOk, PageFits;
  }

  lemma StartRequested(y: System, now: u64, capacity: nat)
    requires Inv(y) && Flowing(y) && y.client.rpc.Paging? && y.client.rpc.base.None? && y.call.Some?
    ensures var (r, rpc) := (Request(y.model, y.session, y.call.value.opcode, y.call.value.body, now, capacity), y.client.rpc);
      |y.session.subs| == SUBSCRIPTIONS && Answered(y.model, y.history, y.session, r)
      && (r.status == OK ==> FirstPage(r, rpc.subsystem, rpc.name, rpc.subscribe))
  {
    hide Faithful, Tracked, StartSnapshot, NormalPage, PageTrue, HeadOk, Expire, Link, Answered, FirstPage, ParseRequest, StartCall;
    var rpc, e := y.client.rpc, Expire(y.session, now);
    StartUnderstood(rpc.subsystem, rpc.name, rpc.subscribe);
    ExpireSettled(y.model, y.history, y.session, now);
    StartAnswered(y.model, y.history, e, rpc.subsystem, rpc.name, rpc.subscribe, now, capacity);
    AnsweredThroughExpire(y.model, y.history, y.session, now,
                          StartSnapshot(y.model, e, rpc.subsystem, rpc.name, rpc.subscribe, now, capacity));
  }

  lemma ReplyToStart(y: System, now: u64, capacity: nat)
    requires Inv(y) && Flowing(y) && y.client.rpc.Paging? && y.client.rpc.base.None? && y.call.Some?
    ensures Replied(y, Request(y.model, y.session, y.call.value.opcode, y.call.value.body, now, capacity))
  {
    hide Faithful, Tracked, StartSnapshot, NormalPage, PageTrue, HeadOk, Expire, Request, FromSnapshot, Link;
    StartRequested(y, now, capacity);
    var r := Request(y.model, y.session, y.call.value.opcode, y.call.value.body, now, capacity);
    SettledShape(y.model, y.history, r.session);
    if r.status == OK {
      ServedHead(y, r.session, r.page.value);
    }
    PagingOk(y, r);
  }

  lemma ReplyToContinue(y: System, now: u64, capacity: nat)
    requires Inv(y) && Flowing(y) && y.client.rpc.Paging? && y.client.rpc.base.Some? && y.call.Some?
    ensures Replied(y, Request(y.model, y.session, y.call.value.opcode, y.call.value.body, now, capacity))
  {
    var rpc, e := y.client.rpc, Expire(y.session, now);
    var b := rpc.base.value;
    assert NormalPast(y.history[b.generation], |y.model.log|) && NormalView(y.history[b.generation].views[b.revision]);
    GetUnderstood(rpc.subsystem, rpc.name, b.token, rpc.next);
    ExpireSettled(y.model, y.history, y.session, now);
    ContinueAnswered(y.model, y.history, e, rpc.subsystem, rpc.name, b.token, rpc.next, now, capacity);
    var r := ContinueSnapshot(e, rpc.subsystem, rpc.name, b.token, rpc.next, now, capacity);
    AnsweredThroughExpire(y.model, y.history, y.session, now, r);
    ContinueKeeps(e, rpc.subsystem, rpc.name, b.token, rpc.next, now, capacity);
    hide Faithful, Tracked, NormalPage, PageTrue, ParseRequest, ContinueCall, ContinueSnapshot;
    if r.status == OK {
      ContinueOwner(y.model, y.history, e, rpc.subsystem, rpc.name, b.token, rpc.next, now, capacity);
      ServedHead(y, r.session, r.page.value);
    }
    PagingOk(y, r);
  }

  /** Paging on leaves the snapshot itself alone, and succeeds only under its own token and names. */
  lemma ContinueKeeps(s: Session, subsystem: Bytes, name: Bytes, token: u32, first: u16, now: u64, capacity: nat)
    ensures var r := ContinueSnapshot(s, subsystem, name, token, first, now, capacity);
      && r.session.token == s.token && r.session.snapshot == s.snapshot && r.session.snapshotSub == s.snapshotSub
      && r.session.lastSub == s.lastSub
      && (r.status == OK ==> token == s.token && subsystem == s.snapshot.subsystem && name == s.snapshot.name)
  {
    hide FitCount;
  }

  lemma ServeLink(y: System, z: System, r: Reply, id: nat)
    requires Link(y, id) && Replied(y, r) && Answers(y.channel) == 0
    requires z == y.(session := r.session, call := None, channel := y.channel + [Answer(r.status, r.page)])
    ensures Link(z, id)
  {
    ChannelAppend(y.channel, Answer(r.status, r.page));
    if id != 0 && Base(z, id).Some? {
      var (g, rev) := Base(z, id).value;
      if Completing(z, id) {
        assert LeadsTo(z.history, z.session.subs, id, g, rev, []);
      } else {
        assert Base(y, id) == Base(z, id) && Tail(y, id) == Tail(z, id);
        assert LeadsTo(z.history, z.session.subs, id, g, rev, Tail(z, id));
      }
    }
  }

  /** Nobody reads the answer any more, yet the session stays settled. */
  lemma ServeUnread(y: System, now: u64, capacity: nat)
    requires Inv(y) && y.client.health != Running
    ensures Inv(StepServe(y, now, capacity))
  {
    if y.call.Some? {
      var e := Expire(y.session, now);
      ExpireSettled(y.model, y.history, y.session, now);
      ExecuteAnswered(y.model, y.history, e, ParseRequest(y.call.value.opcode, y.call.value.body), now, capacity);
    }
  }

  lemma ServeInv(y: System, now: u64, capacity: nat)
    requires Inv(y)
    ensures Inv(StepServe(y, now, capacity))
  {
    if y.client.health != Running {
      ServeUnread(y, now, capacity);
    } else if y.call.Some? {
      var r := Request(y.model, y.session, y.call.value.opcode, y.call.value.body, now, capacity);
      AnyReply(y, now, capacity);
      hide Request;
      ServeFlows(y, StepServe(y, now, capacity), r);
    }
  }

  lemma AnyReply(y: System, now: u64, capacity: nat)
    requires Inv(y) && y.client.health == Running && y.call.Some?
    ensures Replied(y, Request(y.model, y.session, y.call.value.opcode, y.call.value.body, now, capacity))
    ensures Answers(y.channel) == 0
  {
    if y.client.rpc.Dropping? {
      ReplyToDrop(y, now, capacity);
    } else if y.client.rpc.base.None? {
      ReplyToStart(y, now, capacity);
    } else {
      ReplyToContinue(y, now, capacity);
    }
  }

  lemma RepliedParts(y: System, r: Reply)
    requires Replied(y, r)
    ensures Settled(y.model, y.history, r.session) && r.session.lastSub >= y.session.lastSub
    ensures RpcOk(y.(session := r.session, call := None, channel := y.channel + [Answer(r.status, r.page)]))
  {
    hide Settled, RpcOk;
  }

  lemma ServeFlows(y: System, z: System, r: Reply)
    requires Inv(y) && Replied(y, r) && Answers(y.channel) == 0 && y.client.health == Running
    requires z == y.(session := r.session, call := None, channel := y.channel + [Answer(r.status, r.page)])
    ensures Inv(z)
  {
    hide Settled, Faithful, Truthful, Link, RpcOk, Replied;
    RepliedParts(y, r);
    SettledShape(y.model, y.history, r.session);
    ChannelAppend(y.channel, Answer(r.status, r.page));
    forall id ensures Link(z, id) { ServeLink(y, z, r, id); }
  }
}
