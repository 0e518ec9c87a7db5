/**
 Whole runs: any interleaving of registry changes, requests, deliveries and client steps.
 */
module CacheRuns {
  import opened Words
  import opened Statuses
  import opened CacheModel
  import opened CacheWire
  import opened CacheSession
  import opened CacheHistory
  import opened CacheDelivery
  import opened CacheClient
  import opened CacheSystem
  import opened CacheReplication
  import opened CacheServerSteps
  import opened CacheClientSteps

  lemma ReceiveInv(y: System)
    requires Inv(y)
    ensures Inv(StepReceive(y))
  {
    if y.client.health == Running && y.client.rpc != Idle && y.channel != [] {
      match y.channel[0]
      case Notice(e) => ReceiveNoticeInv(y, e);
      case Answer(status, page) =>
        if status != OK {
          ReceiveErrorInv(y);
        } else if y.client.rpc.Dropping? {
          ReceiveDropInv(y);
        } else {
          AnswerHasPage(y);
          var p := page.value;
          if p.Next() != LAST_PAGE {
            ReceiveOnwardInv(y, p);
          } else {
            ReceiveLastInv(y, p);
          }
        }
    }
  }

  lemma AnswerHasPage(y: System)
    requires Inv(y) && y.client.health == Running && y.client.rpc.Paging?
    requires y.channel != [] && y.channel[0].Answer? && y.channel[0].status == OK
    ensures y.channel[0].page.Some?
  {
    InvParts(y);
    hide Inv, PartOk, PageFits, Faithful, Link;
    assert Answers(y.channel) > 0;
    PopAnswer(y.channel);
  }

  lemma DefineInv(y: System, handle: u16, subsystem: Bytes, name: Bytes, presence: nat, described: seq<Entry>)
    requires Inv(y) && CountersLeft(y.model)
    ensures Inv(StepDefine(y, handle, subsystem, name, presence, described))
  {
    DefineIsFaithful(y.model, y.history, handle, subsystem, name, presence, described);
    var r := Define(y.model, handle, subsystem, name, presence, described);
    var z := StepDefine(y, handle, subsystem, name, presence, described);
    hide Faithful, Settled, Grown, Flowing, Define, Truthful;
    if r.status == Ok {
      RegistryStepInv(y, z, r.handle);
    } else {
      assert z == y;
    }
  }

  /** A change of the registry that the record follows. */
  lemma ChangeInv(y: System, after: Model, handle: u16)
    requires Inv(y) && CountersLeft(y.model)
    requires after.log != y.model.log ==> 1 <= handle <= |after.devices|
    requires var k := if after.log != y.model.log then Extended(y.history, after, handle) else y.history;
      Faithful(after, k) && Grown(y.history, k) && (after == y.model || (after.log != y.model.log && OneMore(y.model, after, handle)))
    ensures Inv(StepChange(y, after, handle))
  {
    hide Faithful, Settled, Grown, Flowing, Truthful;
    RegistryStepInv(y, StepChange(y, after, handle), handle);
  }

  lemma {:induction false} StepInv(y: System, a: Action)
    requires Inv(y)
    ensures Inv(Step(y, a))
  {
    hide Inv, Define;
    ShapedInv(y);
    match a
    case OnDefine(handle, subsystem, name, presence, described) =>
      if CountersLeft(y.model) { DefineInv(y, handle, subsystem, name, presence, described); }
    case OnPut(handle, index, value, valid, source, updatedMs, now) =>
      if CountersLeft(y.model) {
        PutIsFaithful(y.model, y.history, handle, index, value, valid, source, updatedMs, now);
        ChangeInv(y, Put(y.model, handle, index, value, valid, source, updatedMs, now).1, handle);
      }
    case OnPresence(handle, presence, now) =>
      if CountersLeft(y.model) {
        SetPresenceIsFaithful(y.model, y.history, handle, presence, now);
        ChangeInv(y, SetPresence(y.model, handle, presence, now).1, handle);
      }
    case OnServe(now, capacity) => ServeInv(y, now, capacity);
    case OnNotify(now, capacity) => NotifyInv(y, now, capacity);
    case OnBegin(subsystem, name, subscribe) => BeginInv(y, subsystem, name, subscribe);
    case OnUnsubscribe(id) => UnsubscribeInv(y, id);
    case OnReceive => ReceiveInv(y);
    case OnTake => TakeInv(y);
  }

  lemma ShapedInv(y: System)
    requires Inv(y)
    ensures y.Shaped() && Faithful(y.model, y.history) && Settled(y.model, y.history, y.session)
  {
  }

  lemma InitialInv()
    ensures Inv(Initial())
  {
    var y := Initial();
    assert Settled(y.model, y.history, y.session);
    assert Flowing(y) by {
      hide Chain;
    }
  }

  /** All states of a run, the initial one included. */
  ghost predicate Run(trace: seq<System>, actions: seq<Action>) {
    && |trace| == |actions| + 1 && trace[0] == Initial()
    && forall i :: 0 <= i < |actions| ==> StepsTo(trace[i], actions[i], trace[i + 1])
  }

  ghost predicate StepsTo(y: System, a: Action, z: System) { y.Shaped() && z == Step(y, a) }

  lemma {:induction false} RunInv(trace: seq<System>, actions: seq<Action>, n: nat)
    requires Run(trace, actions) && n <= |actions|
    ensures Inv(trace[n])
  {
    hide Inv, Step;
    if n == 0 {
      InitialInv();
    } else {
      RunInv(trace, actions, n - 1);
      StepInv(trace[n - 1], actions[n - 1]);
    }
  }

  // ----- What every run guarantees

  /** A replica the client calls synchronized is a state its device was in, at the revision it names. */
  lemma SynchronizedIsPastState(trace: seq<System>, actions: seq<Action>, n: nat, id: nat)
    requires Run(trace, actions) && n <= |actions|
    requires id in trace[n].client.replicas && trace[n].client.replicas[id].synchronized
    ensures var r := trace[n].client.replicas[id];
      exists k: nat, i: nat :: k <= n && i < |trace[k].model.devices| && MatchesDevice(r, trace[k].model.devices[i])
  {
    RunInv(trace, actions, n);
    hide Run, Inv, Step;
    ReplicasTrue(trace[n], id);
    var r := trace[n].client.replicas[id];
    RecordedWas(trace, actions, n, r.generation, r.revision);
    var k: nat, i: nat :| k <= n && i < |trace[k].model.devices| && WasState(trace[k].model.devices[i], trace[n].history, r.generation, r.revision);
    assert MatchesDevice(r, trace[k].model.devices[i]);
  }

  /** The replica shows exactly this device: same identity, same resources, same presence. */
  ghost predicate MatchesDevice(r: Replica, d: Device) {
    && d.generation == r.generation && d.revision == r.revision
    && d.subsystem == r.subsystem && d.name == r.name && r.presence == d.presence && r.resources == Table(d.entries)
  }

  ghost predicate WasState(d: Device, h: History, g: nat, r: nat) {
    && g in h && r < |h[g].views| && d.generation == g && d.revision == r
    && d.subsystem == h[g].subsystem && d.name == h[g].name && ViewOf(d) == h[g].views[r]
  }

  lemma InitialEmpty()
    ensures Initial().history == map[]
  {
  }

  lemma StillWas(y: System, a: Action, d: Device, g: nat, r: nat)
    requires y.Shaped() && Inv(y) && WasState(d, y.history, g, r)
    ensures WasState(d, Step(y, a).history, g, r)
  {
    hide Inv, Step;
    StepGrows(y, a);
    ViewKept(y.history, Step(y, a).history, g, r);
  }

  /** Everything the ghost record holds is the state some device of the registry really had. */
  lemma {:induction false} RecordedWas(trace: seq<System>, actions: seq<Action>, n: nat, g: nat, r: nat)
    requires Run(trace, actions) && n <= |actions|
    requires g in trace[n].history && r < |trace[n].history[g].views|
    ensures exists k: nat, i: nat :: k <= n && i < |trace[k].model.devices| && WasState(trace[k].model.devices[i], trace[n].history, g, r)
  {
    hide Inv, Step, WasState;
    InitialEmpty();
    if n > 0 {
      RunInv(trace, actions, n - 1);
      var y, a := trace[n - 1], actions[n - 1];
      ShapedInv(y);
      assert trace[n] == Step(y, a);
      if g in y.history && r < |y.history[g].views| {
        RecordedWas(trace, actions, n - 1, g, r);
        var k: nat, i: nat :| k <= n - 1 && i < |trace[k].model.devices| && WasState(trace[k].model.devices[i], y.history, g, r);
        StillWas(y, a, trace[k].model.devices[i], g, r);
      } else {
        NewlyRecorded(y, a, g, r);
        var i: nat :| i < |trace[n].model.devices| && WasState(trace[n].model.devices[i], trace[n].history, g, r);
      }
    }
  }

  lemma GrownSelf(h: History)
    ensures Grown(h, h)
  {
  }

  lemma StepGrows(y: System, a: Action)
    requires Inv(y)
    ensures Grown(y.history, Step(y, a).history)
  {
    hide Inv, Define, Faithful, Settled, OneMore, Redefined, Put, SetPresence, Grown;
    ShapedInv(y);
    assert Grown(y.history, y.history) by { GrownSelf(y.history); }
    match a
    case OnDefine(handle, subsystem, name, presence, described) =>
      if CountersLeft(y.model) { DefineIsFaithful(y.model, y.history, handle, subsystem, name, presence, described); }
    case OnPut(handle, index, value, valid, source, updatedMs, now) =>
      PutIsFaithful(y.model, y.history, handle, index, value, valid, source, updatedMs, now);
    case OnPresence(handle, presence, now) =>
      SetPresenceIsFaithful(y.model, y.history, handle, presence, now);
    case _ =>
  }

  ghost predicate HeldBy(m: Model, h: History, g: nat, r: nat) {
    exists i: nat :: i < |m.devices| && WasState(m.devices[i], h, g, r)
  }

  lemma BegunRecords(m: Model, h: History, after: Model, handle: u16, g: nat, r: nat)
    requires Redefined(m, after, handle)
    requires var k := Begun(h, after, handle); g in k && r < |k[g].views| && !(g in h && r < |h[g].views|)
    ensures HeldBy(after, Begun(h, after, handle), g, r)
  {
    assert WasState(after.devices[handle - 1], Begun(h, after, handle), g, r);
  }

  lemma ExtendedRecords(m: Model, h: History, after: Model, handle: u16, g: nat, r: nat)
    requires OneMore(m, after, handle) && Faithful(m, h)
    requires var k := Extended(h, after, handle); g in k && r < |k[g].views| && !(g in h && r < |h[g].views|)
    ensures HeldBy(after, Extended(h, after, handle), g, r)
  {
    assert CacheHistory.Kept(h, handle - 1, m.devices[handle - 1]);
    hide Faithful;
    assert WasState(after.devices[handle - 1], Extended(h, after, handle), g, r);
  }

  /** What one step adds to the record is what the changed device now is. */
  lemma NewlyRecorded(y: System, a: Action, g: nat, r: nat)
    requires Inv(y)
    requires var z := Step(y, a);
      g in z.history && r < |z.history[g].views| && !(g in y.history && r < |y.history[g].views|)
    ensures HeldBy(Step(y, a).model, Step(y, a).history, g, r)
  {
    hide Inv, Define, Faithful, Settled, HeldBy, OneMore, Redefined, Grown, Put, SetPresence;
    ShapedInv(y);
    match a
    case OnDefine(handle, subsystem, name, presence, described) =>
      DefineIsFaithful(y.model, y.history, handle, subsystem, name, presence, described);
      var d := Define(y.model, handle, subsystem, name, presence, described);
      BegunRecords(y.model, y.history, d.model, d.handle, g, r);
    case OnPut(handle, index, value, valid, source, updatedMs, now) =>
      PutIsFaithful(y.model, y.history, handle, index, value, valid, source, updatedMs, now);
      ExtendedRecords(y.model, y.history, Put(y.model, handle, index, value, valid, source, updatedMs, now).1, handle, g, r);
    case OnPresence(handle, presence, now) =>
      SetPresenceIsFaithful(y.model, y.history, handle, presence, now);
      ExtendedRecords(y.model, y.history, SetPresence(y.model, handle, presence, now).1, handle, g, r);
    case _ =>
  }

  /** The client never meets a frame it cannot decode or a page that contradicts an earlier one. */
  lemma NeverRejected(trace: seq<System>, actions: seq<Action>, n: nat)
    requires Run(trace, actions) && n <= |actions|
    ensures trace[n].client.health != Rejected
  {
    RunInv(trace, actions, n);
  }

  /** No event for `id` is queued or on its way. */
  predicate Drained(y: System, id: nat) {
    y.client.rpc == Idle && Of(y.client.queue, id) == [] && Of(Events(y.channel), id) == []
  }

  /** The server has nothing more to send for this subscription. */
  predicate Silent(y: System, i: nat, now: u64)
    requires i < |y.session.subs|
  {
    Active(y.session.subs[i]) && Poll(y.model, y.session.subs[i], now).Quiet?
  }

  /** Once the server has nothing more to say, a synchronized replica is the device as it now is. */
  lemma CaughtUpIsCurrent(trace: seq<System>, actions: seq<Action>, n: nat, i: nat, now: u64)
    requires Run(trace, actions) && n <= |actions| && i < |trace[n].session.subs|
    requires Silent(trace[n], i, now) && trace[n].client.health == Running
    requires var id := trace[n].session.subs[i].id;
      Drained(trace[n], id) && id in trace[n].client.replicas && trace[n].client.replicas[id].synchronized
    ensures var y, sub := trace[n], trace[n].session.subs[i];
      && 1 <= sub.handle <= |y.model.devices|
      && MatchesDevice(y.client.replicas[sub.id], y.model.devices[sub.handle - 1])
  {
    RunInv(trace, actions, n);
    var y := trace[n];
    hide Run, Step;
    CaughtUp(y, i, now);
  }

  lemma CaughtUp(y: System, i: nat, now: u64)
    requires Inv(y) && i < |y.session.subs| && Silent(y, i, now) && y.client.health == Running
    requires var id := y.session.subs[i].id;
      Drained(y, id) && id in y.client.replicas && y.client.replicas[id].synchronized
    ensures var sub := y.session.subs[i];
      && 1 <= sub.handle <= |y.model.devices|
      && MatchesDevice(y.client.replicas[sub.id], y.model.devices[sub.handle - 1])
  {
    var sub := y.session.subs[i];
    var r := y.client.replicas[sub.id];
    InvParts(y);
    assert Link(y, sub.id);
    Unanswered(y.channel);
    assert Tail(y, sub.id) == [] + ([] + []);
    assert LeadsTo(y.history, y.session.subs, sub.id, r.generation, r.revision, []);
    assert sub.generation == r.generation && sub.revision == r.revision;
    assert Tracks(y.model, y.history, sub);
    NextIsContiguous(y.model, y.history, sub);
    ReplicasTrue(y, sub.id);
    assert CacheHistory.Kept(y.history, sub.handle - 1, y.model.devices[sub.handle - 1]);
  }
}
