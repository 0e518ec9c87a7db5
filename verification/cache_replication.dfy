/**
 The replication invariant: what a client knows, what is on its way to it, and what its
 subscription will still send always add up to the recorded history.
 */
module CacheReplication {
  import opened Words
  import opened CacheModel
  import opened CacheWire
  import opened CacheSession
  import opened CacheHistory
  import opened CacheDelivery
  import opened CacheClient
  import opened CacheSystem

  /** A synchronized replica is exactly the recorded state it names. */
  ghost predicate Truthful(h: History, r: Replica) {
    r.synchronized ==>
      && r.generation in h && r.revision < |h[r.generation].views|
      && h[r.generation].subsystem == r.subsystem && h[r.generation].name == r.name
      && r.resources == Table(h[r.generation].views[r.revision].entries)
      && r.presence == h[r.generation].views[r.revision].presence
  }

  predicate Alive(events: seq<Event>) {
    forall i :: 0 <= i < |events| ==> events[i].kind != RESYNC_KIND
  }

  /** From revision `r` on, the events announce the recorded steps one by one, up to a resynchronization. */
  ghost predicate Chain(h: History, g: nat, r: nat, events: seq<Event>)
    decreases events
  {
    events != [] && events[0].kind != RESYNC_KIND ==> Announces(h, g, r, events[0]) && Chain(h, g, r + 1, events[1..])
  }

  function Of(events: seq<Event>, id: nat): seq<Event> {
    if events == [] then []
    else (if events[0].sub == id then [events[0]] else []) + Of(events[1..], id)
  }

  /** The events ahead of the first answer, and those behind it. */
  function Pre(ms: seq<Message>): seq<Event> {
    if ms == [] || ms[0].Answer? then [] else [ms[0].event] + Pre(ms[1..])
  }

  function Events(ms: seq<Message>): seq<Event> {
    if ms == [] then [] else (if ms[0].Notice? then [ms[0].event] else []) + Events(ms[1..])
  }

  function Post(ms: seq<Message>): seq<Event> {
    if ms == [] then [] else if ms[0].Answer? then Events(ms[1..]) else Post(ms[1..])
  }

  function Answers(ms: seq<Message>): nat {
    if ms == [] then 0 else (if ms[0].Answer? then 1 else 0) + Answers(ms[1..])
  }

  function FirstAnswer(ms: seq<Message>): Message
    requires Answers(ms) > 0
    ensures FirstAnswer(ms).Answer?
  {
    if ms[0].Answer? then ms[0] else FirstAnswer(ms[1..])
  }

  lemma {:induction false} OfAppend(a: seq<Event>, b: seq<Event>, id: nat)
    ensures Of(a + b, id) == Of(a, id) + Of(b, id)
  {
    if a == [] {
      assert a + b == b;
    } else {
      assert (a + b)[1..] == a[1..] + b;
      OfAppend(a[1..], b, id);
    }
  }

  lemma {:induction false} ChannelAppend(ms: seq<Message>, x: Message)
    ensures Answers(ms + [x]) == Answers(ms) + if x.Answer? then 1 else 0
    ensures Events(ms + [x]) == Events(ms) + if x.Notice? then [x.event] else []
    ensures Answers(ms) == 0 ==> Pre(ms) == Events(ms) && Post(ms) == []
    ensures Answers(ms) == 0 && x.Notice? ==> Pre(ms + [x]) == Pre(ms) + [x.event] && Post(ms + [x]) == []
    ensures Answers(ms) == 0 && x.Answer? ==> Pre(ms + [x]) == Pre(ms) && Post(ms + [x]) == [] && FirstAnswer(ms + [x]) == x
    ensures Answers(ms) > 0 ==>
              && Pre(ms + [x]) == Pre(ms) && FirstAnswer(ms + [x]) == FirstAnswer(ms)
              && Post(ms + [x]) == Post(ms) + if x.Notice? then [x.event] else []
  {
    if ms == [] {
      assert ms + [x] == [x];
      assert [x][1..] == [];
    } else {
      assert (ms + [x])[1..] == ms[1..] + [x];
      assert (ms + [x])[0] == ms[0];
      ChannelAppend(ms[1..], x);
    }
  }

  lemma ChainAppend(h: History, g: nat, r: nat, events: seq<Event>, e: Event)
    requires Chain(h, g, r, events)
    requires Alive(events) && e.kind != RESYNC_KIND ==> Announces(h, g, r + |events|, e)
    ensures Chain(h, g, r, events + [e])
    decreases events
  {
    if events != [] {
      assert (events + [e])[1..] == events[1..] + [e];
      if events[0].kind != RESYNC_KIND {
        assert Alive(events[1..]) ==> Alive(events) by {
          assert forall i :: 1 <= i < |events| ==> events[i] == events[1..][i - 1];
        }
        ChainAppend(h, g, r + 1, events[1..], e);
      }
    }
  }

  lemma {:induction false} ChainGrown(h: History, k: History, g: nat, r: nat, events: seq<Event>)
    requires Chain(h, g, r, events) && Grown(h, k)
    ensures Chain(k, g, r, events)
    decreases events
  {
    if events != [] && events[0].kind != RESYNC_KIND {
      ViewKept(h, k, g, r);
      ViewKept(h, k, g, r + 1);
      ChainGrown(h, k, g, r + 1, events[1..]);
    }
  }

  // ----- The invariant

  ghost predicate Known(events: seq<Event>, lastSub: nat) {
    forall i :: 0 <= i < |events| ==> NormalEvent(events[i]) && events[i].sub <= lastSub
  }

  /** The last page of a subscription's snapshot is on its way. */
  predicate Completing(y: System, id: nat) {
    && Answers(y.channel) > 0
    && var a := FirstAnswer(y.channel);
       a.status == OK && a.page.Some? && a.page.value.sub == id && a.page.value.Next() == LAST_PAGE
  }

  /** The generation and revision from which the events still to be taken for `id` start. */
  function Base(y: System, id: nat): Option<(nat, nat)> {
    if Completing(y, id) then
      var p := FirstAnswer(y.channel).page.value;
      Some((p.generation, p.revision))
    else if id in y.client.replicas && y.client.replicas[id].synchronized then
      Some((y.client.replicas[id].generation, y.client.replicas[id].revision))
    else None
  }

  function Tail(y: System, id: nat): seq<Event> {
    if Completing(y, id) then Of(Post(y.channel), id)
    else Of(y.client.queue, id) + (Of(Pre(y.channel), id) + Of(Post(y.channel), id))
  }

  /** The events lead from the base to where an active subscription stands. */
  ghost predicate LeadsTo(h: History, subs: seq<Sub>, id: nat, g: nat, r: nat, tail: seq<Event>) {
    && Chain(h, g, r, tail)
    && (Alive(tail) ==> forall i :: 0 <= i < |subs| && subs[i].id == id && Active(subs[i]) ==>
          subs[i].generation == g && subs[i].revision == r + |tail|)
  }

  ghost predicate Link(y: System, id: nat) {
    id != 0 && Base(y, id).Some? ==>
      var (g, r) := Base(y, id).value;
      LeadsTo(y.history, y.session.subs, id, g, r, Tail(y, id))
  }

  /** A page that agrees with the record and, while its token lives, with the session's snapshot. */
  ghost predicate HeadOk(h: History, s: Session, rpc: Rpc, p: Page)
    requires rpc.Paging?
  {
    && p.generation in h && p.revision < |h[p.generation].views|
    && h[p.generation].subsystem == rpc.subsystem && h[p.generation].name == rpc.name
    && p.total == |h[p.generation].views[p.revision].entries|
    && p.presence == h[p.generation].views[p.revision].presence
    && 0 < p.token < 0x1_0000_0000 && (p.sub != 0 <==> rpc.subscribe) && p.sub <= s.lastSub
    && (s.token != 0 ==> FromSnapshot(s, p) && s.snapshot.subsystem == rpc.subsystem && s.snapshot.name == rpc.name)
  }

  predicate Waiting(y: System, call: Call) { y.call == Some(call) && Answers(y.channel) == 0 }

  ghost predicate Answering(y: System) { y.call == None && Answers(y.channel) == 1 }

  /** Pages so far are the first `next` resources of one recorded state. */
  ghost predicate PartOk(h: History, s: Session, rpc: Rpc)
    requires rpc.Paging?
  {
    match rpc.base
    case None => rpc.next == 0 && rpc.resources == map[]
    case Some(b) =>
      && HeadOk(h, s, rpc, b) && 0 < rpc.next < b.total
      && rpc.resources == Table(h[b.generation].views[b.revision].entries[..rpc.next])
  }

  function NextCall(rpc: Rpc): Call
    requires rpc.Paging? && |rpc.subsystem| < 0x100 && |rpc.name| < 0x100
  {
    match rpc.base
    case None => StartCall(rpc.subsystem, rpc.name, rpc.subscribe)
    case Some(b) => ContinueCall(rpc.subsystem, rpc.name, b.token, rpc.next)
  }

  ghost predicate PageFits(h: History, s: Session, rpc: Rpc, p: Page)
    requires rpc.Paging?
  {
    && HeadOk(h, s, rpc, p) && PageTrue(h, p) && NormalPage(p) && p.first == rpc.next
    && (rpc.base.Some? ==> SameHeader(rpc.base.value, p))
    && (s.token != 0 ==> s.progress == p.first + |p.entries|)
  }

  ghost predicate RpcOk(y: System) {
    match y.client.rpc
    case Idle => y.call == None && Answers(y.channel) == 0
    case Dropping(id) =>
      || Waiting(y, DropCall(id))
      || (Answering(y) && var a := FirstAnswer(y.channel);
          a.status == OK ==> a.page == None && id <= y.session.lastSub && Of(Post(y.channel), id) == []
                             && forall i :: 0 <= i < |y.session.subs| ==> y.session.subs[i].id != id)
    case Paging(subsystem, name, subscribe, base, _, next) =>
      && NameValid(subsystem) && NameValid(name) && PartOk(y.history, y.session, y.client.rpc)
      && (|| (Waiting(y, NextCall(y.client.rpc)) && (base.Some? && y.session.token != 0 ==> y.session.progress == next))
          || (Answering(y) && var a := FirstAnswer(y.channel);
              a.status == OK ==> a.page.Some? && PageFits(y.history, y.session, y.client.rpc, a.page.value)))
  }

  ghost predicate Flowing(y: System) {
    && Known(y.client.queue, y.session.lastSub)
    && Known(Events(y.channel), y.session.lastSub)
    && RpcOk(y)
    && (forall id :: Link(y, id))
  }

  ghost predicate Inv(y: System) {
    && y.Shaped()
    && Faithful(y.model, y.history) && |y.model.log| < U64_LIMIT - 1
    && Settled(y.model, y.history, y.session)
    && y.client.health != Rejected
    && (forall id :: id in y.client.replicas ==> id <= y.session.lastSub && Truthful(y.history, y.client.replicas[id]))
    && (y.client.health == Running ==> Flowing(y))
  }

  // ----- Registry steps

  lemma HeadGrown(h: History, k: History, s: Session, rpc: Rpc, p: Page)
    requires rpc.Paging? && Grown(h, k) && HeadOk(h, s, rpc, p)
    ensures HeadOk(k, s, rpc, p) && k[p.generation].views[p.revision] == h[p.generation].views[p.revision]
  {
    ViewKept(h, k, p.generation, p.revision);
  }

  lemma RpcGrown(y: System, z: System)
    requires RpcOk(y) && Grown(y.history, z.history)
    requires z == y.(model := z.model, history := z.history)
    ensures RpcOk(z)
  {
    var rpc := y.client.rpc;
    if rpc.Paging? {
      if rpc.base.Some? {
        HeadGrown(y.history, z.history, y.session, rpc, rpc.base.value);
      }
      if Answering(y) && FirstAnswer(y.channel).status == OK {
        HeadGrown(y.history, z.history, y.session, rpc, FirstAnswer(y.channel).page.value);
      }
    }
  }

  lemma RegistryStepInv(y: System, z: System, handle: u16)
    requires Inv(y) && z == y.(model := z.model, history := z.history)
    requires Faithful(z.model, z.history) && Grown(y.history, z.history) && |z.model.log| < U64_LIMIT - 1
    requires z.model == y.model || OneMore(y.model, z.model, handle) || Redefined(y.model, z.model, handle)
    ensures Inv(z)
  {
    hide Faithful, Settled, OneMore, Redefined, RpcOk, Table;
    FaithfulShape(z.model, z.history);
    RegistryStepSettled(y.model, y.history, z.model, z.history, handle, y.session);
    forall id | id in z.client.replicas ensures id <= z.session.lastSub && Truthful(z.history, z.client.replicas[id]) {
      var r := z.client.replicas[id];
      if r.synchronized {
        ViewKept(y.history, z.history, r.generation, r.revision);
      }
    }
    if y.client.health == Running {
      RpcGrown(y, z);
      forall id ensures Link(z, id) {
        assert Link(y, id);
        if id != 0 && Base(y, id).Some? {
          var (g, r) := Base(y, id).value;
          ChainGrown(y.history, z.history, g, r, Tail(y, id));
        }
      }
    }
  }

  lemma FaithfulShape(m: Model, h: History)
    requires Faithful(m, h)
    ensures |m.devices| == DEVICES_MAX
  {
  }
}
