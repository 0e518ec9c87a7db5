/**
 The replication invariant across the client's steps: sending a request, reading its answer and
 applying events.
 */
module CacheClientSteps {
  import opened Words
  import opened CacheModel
  import opened CacheWire
  import opened CacheSession
  import opened CacheHistory
  import opened CacheDelivery
  import opened CacheClient
  import opened CacheSystem
  import opened CacheReplication

  lemma BeginInv(y: System, subsystem: Bytes, name: Bytes, subscribe: bool)
    requires Inv(y)
    ensures Inv(StepBegin(y, subsystem, name, subscribe))
  {
    var z := StepBegin(y, subsystem, name, subscribe);
    if z != y {
      forall id ensures Link(z, id) { assert Link(y, id); }
    }
  }

  lemma UnsubscribeInv(y: System, id: u16)
    requires Inv(y)
    ensures Inv(StepUnsubscribe(y, id))
  {
    var z := StepUnsubscribe(y, id);
    if z != y {
      forall k ensures Link(z, k) { assert Link(y, k); }
    }
  }

  /** The parts of the invariant a running client relies on. */
  lemma InvParts(y: System)
    requires Inv(y) && y.client.health == Running
    ensures Faithful(y.model, y.history) && Flowing(y) && RpcOk(y)
    ensures Known(y.client.queue, y.session.lastSub) && Known(Events(y.channel), y.session.lastSub)
  {
  }

  lemma ReplicasTrue(y: System, id: nat)
    requires Inv(y) && id in y.client.replicas
    ensures id <= y.session.lastSub && Truthful(y.history, y.client.replicas[id])
  {
  }

  // ----- Wire

  lemma EventArrives(e: Event)
    requires NormalEvent(e)
    ensures ArrivedEvent(e) == Some(e)
  {
    ParseEventExact(EncodeEvent(e), e);
  }

  lemma PageArrives(p: Page)
    requires NormalPage(p)
    ensures Arrived(p) == Some(p)
  {
    ParsePageExact(EncodePage(p), p);
  }

  // ----- Popping the channel

  lemma {:induction false} Unanswered(ms: seq<Message>)
    requires Answers(ms) == 0
    ensures Pre(ms) == Events(ms) && Post(ms) == []
  {
    if ms != [] {
      Unanswered(ms[1..]);
    }
  }

  lemma PopNotice(ms: seq<Message>)
    requires ms != [] && ms[0].Notice?
    ensures Answers(ms[1..]) == Answers(ms) && Pre(ms) == [ms[0].event] + Pre(ms[1..]) && Post(ms[1..]) == Post(ms)
    ensures Events(ms) == [ms[0].event] + Events(ms[1..])
    ensures Answers(ms) > 0 ==> FirstAnswer(ms[1..]) == FirstAnswer(ms)
  {
  }

  lemma PopAnswer(ms: seq<Message>)
    requires ms != [] && ms[0].Answer? && Answers(ms) == 1
    ensures Answers(ms[1..]) == 0 && Pre(ms) == [] && FirstAnswer(ms) == ms[0]
    ensures Pre(ms[1..]) == Post(ms) == Events(ms[1..]) == Events(ms) && Post(ms[1..]) == []
  {
    Unanswered(ms[1..]);
  }

  lemma KnownParts(a: seq<Event>, b: seq<Event>, lastSub: nat)
    requires Known(a + b, lastSub)
    ensures Known(a, lastSub) && Known(b, lastSub)
  {
    forall i | 0 <= i < |a| ensures NormalEvent(a[i]) && a[i].sub <= lastSub { assert (a + b)[i] == a[i]; }
    forall i | 0 <= i < |b| ensures NormalEvent(b[i]) && b[i].sub <= lastSub { assert (a + b)[|a| + i] == b[i]; }
  }

  // ----- Receiving while a request is outstanding

  lemma QueuedKnown(ms: seq<Message>, queue: seq<Event>, lastSub: nat)
    requires ms != [] && ms[0].Notice? && Known(Events(ms), lastSub) && Known(queue, lastSub)
    ensures Known(Events(ms[1..]), lastSub) && Known(queue + [ms[0].event], lastSub)
    ensures NormalEvent(ms[0].event) && ms[0].event.sub <= lastSub
  {
    var e := ms[0].event;
    PopNotice(ms);
    KnownParts([e], Events(ms[1..]), lastSub);
    assert [e][0] == e;
  }

  lemma ReceiveNoticeInv(y: System, e: Event)
    requires Inv(y) && y.client.health == Running && y.client.rpc != Idle && y.channel != [] && y.channel[0] == Notice(e)
    ensures Inv(StepReceive(y))
  {
    hide Inv, Flowing, ArrivedEvent, Truthful, NormalEvent, RpcOk, Known, Faithful, Pre, Post, Events, Answers;
    InvParts(y);
    QueuedKnown(y.channel, y.client.queue, y.session.lastSub);
    EventArrives(e);
    var z := StepReceive(y);
    if |y.client.queue| < QUEUE_LIMIT {
      NoticeFlows(y, z, e);
    }
    forall id | id in z.client.replicas ensures id <= z.session.lastSub && Truthful(z.history, z.client.replicas[id]) {
      ReplicasTrue(y, id);
    }
    ClientStepInv(y, z);
  }

  lemma NoticeFlows(y: System, z: System, e: Event)
    requires Flowing(y) && y.client.rpc != Idle && y.channel != [] && y.channel[0] == Notice(e)
    requires z == y.(channel := y.channel[1..], client := y.client.(queue := y.client.queue + [e]))
    ensures Flowing(z)
  {
    hide Link, RpcOk, NormalEvent;
    NoticeRpc(y, z);
    QueuedKnown(y.channel, y.client.queue, y.session.lastSub);
    forall id ensures Link(z, id) {
      assert Link(y, id);
      QueuedLink(y, z, id);
    }
  }

  lemma NoticeRpc(y: System, z: System)
    requires RpcOk(y) && y.client.rpc != Idle && y.channel != [] && y.channel[0].Notice?
    requires z == y.(channel := y.channel[1..], client := y.client.(queue := z.client.queue))
    ensures RpcOk(z)
  {
    PopNotice(y.channel);
    hide PartOk, PageFits;
  }

  lemma QueuedLink(y: System, z: System, id: nat)
    requires Link(y, id) && y.channel != [] && y.channel[0].Notice?
    requires z == y.(channel := y.channel[1..], client := y.client.(queue := y.client.queue + [y.channel[0].event]))
    ensures Link(z, id)
  {
    hide Of, Pre, Post, FirstAnswer, Answers;
    var e := y.channel[0].event;
    PopNotice(y.channel);
    OfAppend(y.client.queue, [e], id);
    OfAppend([e], Pre(y.channel[1..]), id);
    if id != 0 && Base(y, id).Some? {
      assert Base(z, id) == Base(y, id);
      assert Tail(z, id) == Tail(y, id);
    }
  }

  /** With the answer gone, everything left in the channel follows the queue. */
  lemma AbandonedLink(y: System, z: System, id: nat)
    requires Link(y, id) && y.channel != [] && y.channel[0].Answer? && Answers(y.channel) == 1
    requires z == y.(channel := y.channel[1..], client := z.client, call := z.call)
    requires z.client.queue == y.client.queue && z.client.replicas == y.client.replicas
    requires !Completing(y, id)
    ensures Link(z, id)
  {
    PopAnswer(y.channel);
    if id != 0 && Base(y, id).Some? {
      assert Base(z, id) == Base(y, id);
      assert Tail(z, id) == Tail(y, id);
    }
  }

  lemma {:induction false} WithoutOf(queue: seq<Event>, id: nat, k: nat, lastSub: nat)
    ensures Of(Without(queue, id), k) == if k == id then [] else Of(queue, k)
    ensures Known(queue, lastSub) ==> Known(Without(queue, id), lastSub)
  {
    if queue != [] {
      WithoutOf(queue[1..], id, k, lastSub);
      OfAppend(if queue[0].sub == id then [] else [queue[0]], Without(queue[1..], id), k);
      if Known(queue, lastSub) {
        assert Known(queue[1..], lastSub);
      }
    }
  }

  /** The subscription is gone: no events for it are left anywhere, and it is never active again. */
  /** Dropping a subscription forgets its own events and nobody else's. */
  lemma DroppedTail(y: System, z: System, id: u16, k: nat)
    requires y.channel != [] && y.channel[0] == Answer(OK, None) && Answers(y.channel) == 1
    requires z == y.(channel := y.channel[1..], client := y.client.(queue := Without(y.client.queue, id), rpc := Idle))
    requires Of(Post(y.channel), id) == []
    ensures Base(z, k) == Base(y, k) && Tail(z, k) == if k == id then [] else Tail(y, k)
  {
    hide Without, Of;
    PopAnswer(y.channel);
    WithoutOf(y.client.queue, id, k, 0);
    NothingOf(k);
  }

  lemma NothingOf(k: nat)
    ensures Of([], k) == []
  {
  }

  lemma DroppedLink(y: System, z: System, id: u16, k: nat)
    requires Link(y, k) && y.channel != [] && y.channel[0] == Answer(OK, None) && Answers(y.channel) == 1
    requires z == y.(channel := y.channel[1..], client := y.client.(queue := Without(y.client.queue, id), rpc := Idle))
    requires Of(Post(y.channel), id) == [] && forall i :: 0 <= i < |y.session.subs| ==> y.session.subs[i].id != id
    ensures Link(z, k)
  {
    hide Without, Of, Post, Answers, Base, Tail;
    DroppedTail(y, z, id, k);
    if k != 0 && Base(z, k).Some? {
      var (g, r) := Base(z, k).value;
      assert LeadsTo(z.history, z.session.subs, k, g, r, Tail(z, k));
    }
  }

  lemma ReceiveErrorInv(y: System)
    requires Inv(y) && y.client.health == Running && y.client.rpc != Idle && y.channel != []
    requires y.channel[0].Answer? && y.channel[0].status != OK
    ensures Inv(StepReceive(y))
  {
    var z := StepReceive(y);
    PopAnswer(y.channel);
    hide Settled, Faithful, Truthful;
    forall id ensures Link(z, id) { AbandonedLink(y, z, id); }
  }

  lemma ReceiveDropInv(y: System)
    requires Inv(y) && y.client.health == Running && y.client.rpc.Dropping? && y.channel != []
    requires y.channel[0].Answer? && y.channel[0].status == OK
    ensures Inv(StepReceive(y))
  {
    var z := StepReceive(y);
    PopAnswer(y.channel);
    var id := y.client.rpc.id;
    WithoutOf(y.client.queue, id, 0, y.session.lastSub);
    hide Settled, Faithful, Truthful;
    forall k ensures Link(z, k) { DroppedLink(y, z, id, k); }
  }

  // ----- Receiving a page

  function BaseOf(rpc: Rpc, p: Page): Page
    requires rpc.Paging?
  {
    if rpc.base.Some? then rpc.base.value else p
  }

  lemma RecordedCatalog(m: Model, h: History, g: nat, r: nat)
    requires Faithful(m, h) && g in h && r < |h[g].views|
    ensures DistinctIds(h[g].views[r].entries) && |h[g].views[r].entries| <= RESOURCES_MAX
  {
    assert NormalPast(h[g], |m.log|) && NormalView(h[g].views[r]);
  }

  lemma TableOfNone()
    ensures Table([]) == map[]
  {
  }

  /** No check of the client ever fails: the page adds the next stretch of the same recorded state. */
  lemma PageContinues(m: Model, h: History, s: Session, rpc: Rpc, p: Page)
    requires Faithful(m, h) && rpc.Paging? && PartOk(h, s, rpc) && PageFits(h, s, rpc, p)
    ensures !PageRefused(rpc, p)
    ensures SameHeader(BaseOf(rpc, p), p) && HeadOk(h, s, rpc, BaseOf(rpc, p)) && BaseOf(rpc, p).total == p.total
    ensures var entries := h[p.generation].views[p.revision].entries;
      && rpc.resources + Table(p.entries) == Table(entries[..p.first + |p.entries|])
      && DistinctIds(entries) && p.total == |entries| <= RESOURCES_MAX && p.first + |p.entries| <= p.total
  {
    var entries := h[p.generation].views[p.revision].entries;
    RecordedCatalog(m, h, p.generation, p.revision);
    hide Faithful, Table, NormalPage, NormalCatalog, DistinctIds;
    TableSplit(entries, p.first, p.first + |p.entries|);
    assert Table([]) == map[] by { TableOfNone(); }
    assert entries[..0] == [];
    assert rpc.resources == Table(entries[..rpc.next]);
  }

  /** A page short of the end continues the snapshot. */
  lemma PageOnward(m: Model, h: History, s: Session, c: Client, p: Page)
    requires Faithful(m, h) && c.rpc.Paging? && NameValid(c.rpc.subsystem) && NameValid(c.rpc.name)
    requires PartOk(h, s, c.rpc) && PageFits(h, s, c.rpc, p) && p.Next() != LAST_PAGE
    ensures var (d, call) := OnPage(c, p);
      && d == c.(rpc := d.rpc) && d.rpc.Paging? && PartOk(h, s, d.rpc)
      && d.rpc.subsystem == c.rpc.subsystem && d.rpc.name == c.rpc.name && d.rpc.base.Some?
      && call == Some(NextCall(d.rpc)) && (s.token != 0 ==> s.progress == d.rpc.next)
  {
    PageContinues(m, h, s, c.rpc, p);
    hide Faithful, Table, StartCall, ContinueCall, NormalPage, NormalCatalog, PageRefused;
  }

  /** The last page completes it. */
  lemma PageLast(m: Model, h: History, s: Session, c: Client, p: Page)
    requires Faithful(m, h) && c.rpc.Paging? && NameValid(c.rpc.subsystem) && NameValid(c.rpc.name)
    requires PartOk(h, s, c.rpc) && PageFits(h, s, c.rpc, p) && p.Next() == LAST_PAGE
    ensures var entries := h[p.generation].views[p.revision].entries;
      OnPage(c, p) == (Finished(c, BaseOf(c.rpc, p), Table(entries)), None)
  {
    hide Faithful, Table, PageRefused, HeadOk, PartOk, PageFits, DistinctIds, OnPage, Tabulates, SameHeader, NameChar;
    PageRecorded(h, s, c.rpc, p);
    var entries := h[p.generation].views[p.revision].entries;
    PageContinues(m, h, s, c.rpc, p);
    LastIsTotal(p);
    assert entries[..|entries|] == entries;
    TableContents(entries);
    CompletesWith(c, p, Table(entries));
  }

  lemma PageRecorded(h: History, s: Session, rpc: Rpc, p: Page)
    requires rpc.Paging? && PageFits(h, s, rpc, p)
    ensures p.generation in h && p.revision < |h[p.generation].views|
  {
  }

  lemma CompletesWith(c: Client, p: Page, resources: map<Bytes, Entry>)
    requires c.rpc.Paging? && |c.rpc.subsystem| < 0x100 && |c.rpc.name| < 0x100 && !PageRefused(c.rpc, p)
    requires p.Next() == LAST_PAGE && c.rpc.resources + Table(p.entries) == resources
    requires |resources| == BaseOf(c.rpc, p).total
    ensures OnPage(c, p) == (Finished(c, BaseOf(c.rpc, p), resources), None)
  {
    hide Table, PageRefused, Finished, ContinueCall;
  }

  /** The replica of a completed snapshot is the recorded state it names. */
  lemma FinishedTrue(h: History, s: Session, c: Client, p: Page)
    requires c.rpc.Paging? && HeadOk(h, s, c.rpc, BaseOf(c.rpc, p)) && SameHeader(BaseOf(c.rpc, p), p)
    ensures var d := Finished(c, BaseOf(c.rpc, p), Table(h[p.generation].views[p.revision].entries));
      && d.rpc == Idle && d.health == c.health
      && d.queue == (if p.sub != 0 then Without(c.queue, p.sub) else c.queue)
      && p.sub <= s.lastSub && p.sub in d.replicas && d.replicas == c.replicas[p.sub := d.replicas[p.sub]]
      && Truthful(h, d.replicas[p.sub]) && d.replicas[p.sub].synchronized
      && d.replicas[p.sub].generation == p.generation && d.replicas[p.sub].revision == p.revision
  {
    hide Table, Without;
  }

  lemma LastIsTotal(p: Page)
    requires p.first + |p.entries| <= p.total <= RESOURCES_MAX && p.Next() == LAST_PAGE
    ensures p.first + |p.entries| == p.total
  {
  }

  /** A client step that keeps its replicas true and the flow intact keeps the invariant. */
  lemma ClientStepInv(y: System, z: System)
    requires Inv(y) && z == y.(channel := z.channel, client := z.client, call := z.call)
    requires z.client.health != Rejected
    requires forall id :: id in z.client.replicas ==> id <= z.session.lastSub && Truthful(z.history, z.client.replicas[id])
    requires z.client.health == Running ==> Flowing(z)
    ensures Inv(z)
  {
    hide Settled, Faithful, Truthful, Flowing;
  }

  lemma ReceivePage(y: System, p: Page)
    requires y.client.health == Running && y.client.rpc.Paging? && y.channel != [] && y.channel[0] == Answer(OK, Some(p))
    requires |y.client.rpc.subsystem| < 0x100 && |y.client.rpc.name| < 0x100 && Arrived(p) == Some(p)
    ensures var (d, call) := OnPage(y.client, p); StepReceive(y) == y.(channel := y.channel[1..], client := d, call := call)
  {
    hide OnPage, Arrived;
  }

  lemma OnwardStep(y: System, p: Page)
    requires RpcOk(y) && Faithful(y.model, y.history) && y.client.health == Running && y.client.rpc.Paging?
    requires y.channel != [] && y.channel[0] == Answer(OK, Some(p)) && p.Next() != LAST_PAGE
    ensures var z := StepReceive(y);
      && Answers(y.channel) == 1
      && z == y.(channel := y.channel[1..], client := y.client.(rpc := z.client.rpc), call := z.call)
      && z.client.rpc.Paging? && PartOk(y.history, y.session, z.client.rpc) && z.client.rpc.base.Some?
      && z.client.rpc.subsystem == y.client.rpc.subsystem && z.client.rpc.name == y.client.rpc.name
      && NameValid(z.client.rpc.subsystem) && NameValid(z.client.rpc.name)
      && z.call == Some(NextCall(z.client.rpc)) && (y.session.token != 0 ==> y.session.progress == z.client.rpc.next)
  {
    PageInFlight(y, p);
    assert |y.client.rpc.subsystem| < 0x100 && |y.client.rpc.name| < 0x100;
    hide RpcOk, Faithful, Arrived, OnPage, PartOk, PageFits, NextCall, Answers, NameValid, StepReceive;
    ReceivePage(y, p);
    PageOnward(y.model, y.history, y.session, y.client, p);
  }

  lemma ReceiveOnwardInv(y: System, p: Page)
    requires Inv(y) && y.client.health == Running && y.client.rpc.Paging? && y.channel != []
    requires y.channel[0] == Answer(OK, Some(p)) && p.Next() != LAST_PAGE
    ensures Inv(StepReceive(y))
  {
    InvParts(y);
    OnwardStep(y, p);
    hide Inv, Flowing, StepReceive, RpcOk, Faithful, Known, PartOk, Truthful, NextCall, NameValid;
    var z := StepReceive(y);
    OnwardFlows(y, z, p);
    forall id | id in z.client.replicas { ReplicasTrue(y, id); }
    ClientStepInv(y, z);
  }

  function FinishedBy(y: System, p: Page): Client
    requires y.client.rpc.Paging? && p.generation in y.history && p.revision < |y.history[p.generation].views|
  {
    Finished(y.client, BaseOf(y.client.rpc, p), Table(y.history[p.generation].views[p.revision].entries))
  }

  lemma PageInFlight(y: System, p: Page)
    requires RpcOk(y) && y.client.rpc.Paging? && y.channel != [] && y.channel[0] == Answer(OK, Some(p))
    ensures PageFits(y.history, y.session, y.client.rpc, p) && PartOk(y.history, y.session, y.client.rpc)
    ensures NameValid(y.client.rpc.subsystem) && NameValid(y.client.rpc.name) && Answers(y.channel) == 1
    ensures Arrived(p) == Some(p)
  {
    hide PartOk, HeadOk, PageTrue;
    assert Answers(y.channel) > 0;
    PopAnswer(y.channel);
    PageArrives(p);
  }

  lemma LastStep(y: System, p: Page)
    requires RpcOk(y) && Faithful(y.model, y.history) && y.client.health == Running && y.client.rpc.Paging?
    requires y.channel != [] && y.channel[0] == Answer(OK, Some(p)) && p.Next() == LAST_PAGE
    ensures PageFits(y.history, y.session, y.client.rpc, p)
    ensures StepReceive(y) == y.(channel := y.channel[1..], client := FinishedBy(y, p), call := None)
  {
    PageInFlight(y, p);
    assert |y.client.rpc.subsystem| < 0x100 && |y.client.rpc.name| < 0x100;
    PageLast(y.model, y.history, y.session, y.client, p);
    hide RpcOk, Faithful, Arrived, OnPage, Finished, Table, HeadOk, PartOk, Answers, NormalPage, PageTrue, StepReceive;
    ReceivePage(y, p);
  }

  lemma ReplicasAfter(y: System, z: System, k: nat)
    requires Inv(y) && z.session == y.session && z.history == y.history
    requires k in z.client.replicas && z.client.replicas == y.client.replicas[k := z.client.replicas[k]]
    requires k <= y.session.lastSub && Truthful(y.history, z.client.replicas[k])
    ensures forall id :: id in z.client.replicas ==> id <= z.session.lastSub && Truthful(z.history, z.client.replicas[id])
  {
    hide Inv, Truthful;
    forall id | id in z.client.replicas ensures id <= z.session.lastSub && Truthful(z.history, z.client.replicas[id]) {
      if id != k { ReplicasTrue(y, id); }
    }
  }

  lemma ReceiveLastInv(y: System, p: Page)
    requires Inv(y) && y.client.health == Running && y.client.rpc.Paging? && y.channel != []
    requires y.channel[0] == Answer(OK, Some(p)) && p.Next() == LAST_PAGE
    ensures Inv(StepReceive(y))
  {
    InvParts(y);
    PageInFlight(y, p);
    LastStep(y, p);
    PageContinues(y.model, y.history, y.session, y.client.rpc, p);
    FinishedTrue(y.history, y.session, y.client, p);
    hide Inv, Flowing, StepReceive, RpcOk, Faithful, Known, PartOk, PageFits, HeadOk, Truthful, Finished, Table, PageRefused,
      Without, NameValid, Arrived;
    var z := StepReceive(y);
    LastFlows(y, z, p);
    ReplicasAfter(y, z, p.sub);
    ClientStepInv(y, z);
  }

  lemma OnwardFlows(y: System, z: System, p: Page)
    requires Flowing(y) && y.channel != [] && y.channel[0] == Answer(OK, Some(p)) && Answers(y.channel) == 1
    requires p.Next() != LAST_PAGE && y.client.rpc.Paging?
    requires z == y.(channel := y.channel[1..], client := y.client.(rpc := z.client.rpc), call := z.call)
    requires z.client.rpc.Paging? && z.client.rpc.subsystem == y.client.rpc.subsystem && z.client.rpc.name == y.client.rpc.name
    requires PartOk(z.history, z.session, z.client.rpc) && z.client.rpc.base.Some?
    requires NameValid(z.client.rpc.subsystem) && NameValid(z.client.rpc.name)
    requires z.call == Some(NextCall(z.client.rpc)) && (z.session.token != 0 ==> z.session.progress == z.client.rpc.next)
    ensures Flowing(z)
  {
    PopAnswer(y.channel);
    hide PartOk, PageFits, NextCall, Known;
    forall id ensures Link(z, id) {
      assert Link(y, id);
      AbandonedLink(y, z, id);
    }
  }

  lemma LastFlows(y: System, z: System, p: Page)
    requires Flowing(y) && y.channel != [] && y.channel[0] == Answer(OK, Some(p)) && Answers(y.channel) == 1
    requires p.Next() == LAST_PAGE
    requires z == y.(channel := y.channel[1..], client := z.client, call := None) && z.client.rpc == Idle
    requires z.client.queue == if p.sub != 0 then Without(y.client.queue, p.sub) else y.client.queue
    requires p.sub in z.client.replicas && z.client.replicas == y.client.replicas[p.sub := z.client.replicas[p.sub]]
    requires var r := z.client.replicas[p.sub]; r.synchronized && r.generation == p.generation && r.revision == p.revision
    ensures Flowing(z)
  {
    PopAnswer(y.channel);
    WithoutOf(y.client.queue, p.sub, 0, y.session.lastSub);
    hide PartOk, PageFits, Known;
    forall id ensures Link(z, id) {
      assert Link(y, id);
      CompletedLink(y, z, p, id);
    }
  }

  /** The finished snapshot becomes the base for the events behind its last page. */
  lemma CompletedLink(y: System, z: System, p: Page, id: nat)
    requires Link(y, id) && y.channel != [] && y.channel[0] == Answer(OK, Some(p)) && Answers(y.channel) == 1
    requires p.Next() == LAST_PAGE
    requires z == y.(channel := y.channel[1..], client := z.client, call := z.call)
    requires z.client.queue == if p.sub != 0 then Without(y.client.queue, p.sub) else y.client.queue
    requires p.sub in z.client.replicas && z.client.replicas == y.client.replicas[p.sub := z.client.replicas[p.sub]]
    requires var r := z.client.replicas[p.sub]; r.synchronized && r.generation == p.generation && r.revision == p.revision
    ensures Link(z, id)
  {
    hide Chain, LeadsTo, Without, Of, Pre, Post, Events, Known, NormalPage;
    PopAnswer(y.channel);
    WithoutOf(y.client.queue, p.sub, id, 0);
    if id != 0 && Base(z, id).Some? {
      assert Tail(z, id) == Of(z.client.queue, id) + (Of(Post(y.channel), id) + Of([], id));
      OfNone(id);
      if id == p.sub {
        assert Tail(z, id) == [] + (Tail(y, id) + []);
        assert Tail(z, id) == Tail(y, id);
      } else {
        assert Tail(y, id) == Of(y.client.queue, id) + (Of([], id) + Of(Post(y.channel), id));
        assert Tail(z, id) == Tail(y, id);
      }
    }
  }

  lemma OfNone(id: nat)
    ensures Of([], id) == []
  {
  }

  // ----- Taking an event

  /** A true replica that applies the announced step is true of the next revision. */
  lemma ApplyAnnounced(m: Model, h: History, r: Replica, e: Event)
    requires Faithful(m, h) && Truthful(h, r) && r.synchronized && Announces(h, r.generation, r.revision, e)
    ensures var t := ApplyEvent(r, e);
      Truthful(h, t) && t.synchronized && t.generation == r.generation && t.revision == r.revision + 1
  {
    var before, after := h[r.generation].views[r.revision], h[r.generation].views[r.revision + 1];
    assert NormalPast(h[r.generation], |m.log|) && NormalView(before);
    assert DistinctIds(before.entries);
    hide Faithful, NormalPast, NormalView;
    if e.kind == CHANGE {
      ApplyRow(before.entries, after.entries, e.entries[0]);
      assert e.entries == [e.entries[0]];
      OneRow(e.entries[0], e.entries, r.resources);
    } else {
      assert r.resources + map[] == r.resources;
    }
  }

  lemma ApplyRow(before: seq<Entry>, after: seq<Entry>, x: Entry)
    requires DistinctIds(before) && Replaces(before, after, x)
    ensures x.id in Table(before) && Table(before)[x.id].widthBits == x.widthBits
    ensures Table(after) == Table(before)[x.id := x]
  {
    TableContents(before);
    var i :| 0 <= i < |before| && before[i].id == x.id && before[i].widthBits == x.widthBits && after == before[i := x];
    TableReplace(before, i, x);
  }

  lemma OneRow(x: Entry, entries: seq<Entry>, t: map<Bytes, Entry>)
    requires entries == [x]
    ensures t + Table(entries) == t[x.id := x]
  {
    assert entries[..0] == [];
    assert Table(entries) == map[x.id := x];
  }

  lemma ApplyLost(r: Replica, e: Event)
    requires !r.synchronized || e.kind == RESYNC_KIND
    ensures !ApplyEvent(r, e).synchronized
  {
  }

  /** Applying the head of the stream leaves a true replica from which the rest leads on. */
  lemma AppliedLeads(m: Model, h: History, subs: seq<Sub>, id: nat, r: Replica, e: Event, rest: seq<Event>)
    requires Faithful(m, h) && Truthful(h, r)
    requires r.synchronized ==> LeadsTo(h, subs, id, r.generation, r.revision, [e] + rest)
    ensures var t := ApplyEvent(r, e);
      Truthful(h, t) && (t.synchronized ==> LeadsTo(h, subs, id, t.generation, t.revision, rest))
  {
    var tail := [e] + rest;
    assert tail[0] == e && tail[1..] == rest;
    if r.synchronized && e.kind != RESYNC_KIND {
      ApplyAnnounced(m, h, r, e);
      hide Faithful, Truthful, ApplyEvent, Announces;
      assert Alive(rest) ==> Alive(tail) by {
        assert forall i :: 1 <= i < |tail| ==> tail[i] == rest[i - 1];
      }
    } else {
      ApplyLost(r, e);
    }
  }

  lemma AppliedLink(y: System, z: System, e: Event, id: nat)
    requires Link(y, id) && Answers(y.channel) == 0 && Answers(z.channel) == 0 && Faithful(y.model, y.history)
    requires id in y.client.replicas ==> Truthful(y.history, y.client.replicas[id])
    requires z == y.(channel := z.channel, client := z.client)
    requires z.client.replicas == Applied(y.client, e).replicas
    requires Tail(y, id) == (if e.sub == id then [e] else []) + Tail(z, id)
    ensures Link(z, id)
    ensures id in z.client.replicas ==> e.sub != 0 ==> Truthful(z.history, z.client.replicas[id])
  {
    hide Faithful, Truthful, LeadsTo, ApplyEvent, Tail;
    if id in y.client.replicas {
      if e.sub == id && id != 0 {
        AppliedLeads(y.model, y.history, y.session.subs, id, y.client.replicas[id], e, Tail(z, id));
      } else {
        assert [] + Tail(z, id) == Tail(z, id);
      }
    }
  }

  /** Taking the head of the stream keeps the invariant. */
  lemma TakeFlows(y: System, z: System, e: Event)
    requires Inv(y) && y.client.health == Running && y.client.rpc == Idle && NormalEvent(e)
    requires z == y.(channel := z.channel, client := Applied(y.client.(queue := z.client.queue), e))
    requires Answers(z.channel) == 0 && Known(z.client.queue, y.session.lastSub) && Known(Events(z.channel), y.session.lastSub)
    requires forall id: nat :: Tail(y, id) == (if e.sub == id then [e] else []) + Tail(z, id)
    ensures Inv(z)
  {
    forall id ensures Link(z, id) && (id in z.client.replicas ==> Truthful(z.history, z.client.replicas[id])) {
      assert Link(y, id);
      AppliedLink(y, z, e, id);
    }
    hide Settled, Faithful, Truthful, Link, ApplyEvent, Known;
    ClientStepInv(y, z);
  }

  lemma TakeQueued(y: System, z: System, id: nat)
    requires y.client.queue != [] && Answers(y.channel) == 0
    requires z == y.(client := z.client) && z.client.queue == y.client.queue[1..]
    ensures var e := y.client.queue[0]; Tail(y, id) == (if e.sub == id then [e] else []) + Tail(z, id)
  {
    hide Pre, Post;
  }

  lemma TakeFresh(y: System, z: System, id: nat)
    requires y.client.queue == [] && y.channel != [] && y.channel[0].Notice? && Answers(y.channel) == 0
    requires z == y.(channel := y.channel[1..], client := z.client) && z.client.queue == []
    ensures var e := y.channel[0].event; Tail(y, id) == (if e.sub == id then [e] else []) + Tail(z, id)
  {
    PopNotice(y.channel);
    OfAppend([y.channel[0].event], Pre(y.channel[1..]), id);
  }

  lemma TakeQueuedInv(y: System, z: System)
    requires Inv(y) && y.client.health == Running && y.client.rpc == Idle && y.client.queue != []
    requires z == y.(client := Applied(y.client.(queue := y.client.queue[1..]), y.client.queue[0]))
    ensures Inv(z)
  {
    var e := y.client.queue[0];
    KnownParts([e], y.client.queue[1..], y.session.lastSub);
    assert y.client.queue == [e] + y.client.queue[1..] && [e][0] == e;
    forall id: nat { TakeQueued(y, z, id); }
    hide Tail, Known, NormalEvent, Settled, Faithful, Truthful, Link, ApplyEvent;
    TakeFlows(y, z, e);
  }

  lemma TakeFreshInv(y: System, z: System, e: Event)
    requires Inv(y) && y.client.health == Running && y.client.rpc == Idle && y.client.queue == []
    requires y.channel != [] && y.channel[0] == Notice(e)
    requires z == y.(channel := y.channel[1..], client := Applied(y.client, e))
    ensures Inv(z)
  {
    PopNotice(y.channel);
    QueuedKnown(y.channel, [], y.session.lastSub);
    forall id: nat { TakeFresh(y, z, id); }
    hide Tail, Known, NormalEvent, Settled, Faithful, Truthful, Link, ApplyEvent;
    assert y.client.(queue := []) == y.client;
    TakeFlows(y, z, e);
  }

  lemma TakeInv(y: System)
    requires Inv(y)
    ensures Inv(StepTake(y))
  {
    if y.client.health == Running && y.client.rpc == Idle {
      Unanswered(y.channel);
      if y.client.queue != [] {
        TakeQueuedInv(y, StepTake(y));
      } else if y.channel != [] {
        QueuedKnown(y.channel, [], y.session.lastSub);
        EventArrives(y.channel[0].event);
        hide Inv, Applied;
        TakeFreshInv(y, StepTake(y), y.channel[0].event);
      }
    }
  }
}
