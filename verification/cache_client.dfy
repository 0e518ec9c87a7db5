/**
 The client's side as values: a replica, the snapshot in progress, and the queue of events that
 arrived while a request was outstanding.
 */
module CacheClient {
  import opened Words
  import opened CacheModel
  import opened CacheWire
  import opened CacheSession

  const QUEUE_LIMIT := 2048

  /** Resources by id, later ones replacing earlier ones. */
  function Table(entries: seq<Entry>): map<Bytes, Entry> {
    if entries == [] then map[]
    else
      var last := entries[|entries| - 1];
      Table(entries[..|entries| - 1])[last.id := last]
  }

  datatype Replica = Replica(subsystem: Bytes, name: Bytes, generation: nat, revision: nat, captured: nat,
                             presence: nat, synchronized: bool, resources: map<Bytes, Entry>)

  datatype Rpc =
    | Idle
    | Paging(subsystem: Bytes, name: Bytes, subscribe: bool, base: Option<Page>, resources: map<Bytes, Entry>, next: nat)
    | Dropping(id: u16)

  datatype Health = Running | Overflowed | Rejected

  /** Replicas are kept by subscription id; a one-off snapshot is kept under 0. */
  datatype Client = Client(health: Health, queue: seq<Event>, replicas: map<nat, Replica>, rpc: Rpc)

  const FRESH := Client(Running, [], map[], Idle)

  datatype Call = Call(opcode: u8, body: Bytes)

  function NameBytes(s: Bytes): Bytes
    requires |s| < 0x100
  {
    [|s|] + s
  }

  function TargetBytes(subsystem: Bytes, name: Bytes): Bytes
    requires |subsystem| < 0x100 && |name| < 0x100
  {
    [VERSION] + (NameBytes(subsystem) + NameBytes(name))
  }

  function StartCall(subsystem: Bytes, name: Bytes, subscribe: bool): Call
    requires |subsystem| < 0x100 && |name| < 0x100
  {
    if subscribe then Call(SUBSCRIBE, TargetBytes(subsystem, name))
    else ContinueCall(subsystem, name, 0, 0)
  }

  function ContinueCall(subsystem: Bytes, name: Bytes, token: nat, first: nat): Call
    requires |subsystem| < 0x100 && |name| < 0x100
  {
    Call(GET, TargetBytes(subsystem, name) + (Be(4, token) + Be(2, first)))
  }

  function DropCall(id: u16): Call { Call(UNSUBSCRIBE, [VERSION] + Be(2, id)) }

  function Without(queue: seq<Event>, id: nat): seq<Event> {
    if queue == [] then []
    else (if queue[0].sub == id then [] else [queue[0]]) + Without(queue[1..], id)
  }

  predicate SameHeader(a: Page, b: Page) {
    && a.sub == b.sub && a.token == b.token && a.generation == b.generation && a.revision == b.revision
    && a.captured == b.captured && a.total == b.total && a.presence == b.presence
  }

  /** The client's own checks on a page. */
  predicate PageRefused(rpc: Rpc, p: Page)
    requires rpc.Paging?
  {
    || p.first != rpc.next || (rpc.base.None? && (p.sub != 0) != rpc.subscribe)
    || (rpc.base.Some? && !SameHeader(rpc.base.value, p))
    || rpc.resources.Keys * Table(p.entries).Keys != {}
  }

  /** A complete snapshot replaces the old replica and the events queued for it. */
  function Finished(c: Client, base: Page, resources: map<Bytes, Entry>): Client
    requires c.rpc.Paging?
  {
    var r := Replica(c.rpc.subsystem, c.rpc.name, base.generation, base.revision, base.captured, base.presence, true, resources);
    Client(c.health, if c.rpc.subscribe then Without(c.queue, base.sub) else c.queue, c.replicas[base.sub := r], Idle)
  }

  /** A page in answer to the current request, with the request that follows it, if any. */
  function OnPage(c: Client, p: Page): (Client, Option<Call>)
    requires c.rpc.Paging? && |c.rpc.subsystem| < 0x100 && |c.rpc.name| < 0x100
  {
    var rpc := c.rpc;
    if PageRefused(rpc, p) then (c.(health := Rejected), None)
    else
      var base := if rpc.base.Some? then rpc.base.value else p;
      var resources := rpc.resources + Table(p.entries);
      if p.Next() != LAST_PAGE then
        (c.(rpc := rpc.(base := Some(base), resources := resources, next := p.Next())),
         Some(ContinueCall(rpc.subsystem, rpc.name, base.token, p.Next())))
      else if |resources| != base.total then (c.(health := Rejected), None)
      else (Finished(c, base, resources), None)
  }

  function ApplyEvent(r: Replica, e: Event): Replica {
    if !r.synchronized || e.kind == RESYNC_KIND || e.generation != r.generation || e.revision != r.revision + 1 then
      r.(synchronized := false)
    else if exists i :: 0 <= i < |e.entries| &&
              (e.entries[i].id !in r.resources || e.entries[i].widthBits != r.resources[e.entries[i].id].widthBits) then
      r.(synchronized := false)
    else
      r.(resources := r.resources + Table(e.entries), revision := e.revision, presence := e.presence, captured := e.time)
  }

  // ----- Tables of distinct resources

  ghost predicate HasId(es: seq<Entry>, id: Bytes) { exists i :: 0 <= i < |es| && es[i].id == id }

  ghost predicate Tabulates(t: map<Bytes, Entry>, es: seq<Entry>) {
    && (forall i :: 0 <= i < |es| ==> es[i].id in t && t[es[i].id] == es[i])
    && (forall id :: id in t ==> HasId(es, id))
  }

  lemma {:induction false} TableContents(es: seq<Entry>)
    requires DistinctIds(es)
    ensures Tabulates(Table(es), es) && |Table(es)| == |es|
  {
    if es != [] {
      var n := |es| - 1;
      var init, last := es[..n], es[n];
      TableContents(init);
      assert forall i :: 0 <= i < n ==> init[i].id != last.id;
      TabulatesAppend(Table(init), init, last);
      assert es == init + [last];
    }
  }

  lemma TabulatesAppend(t: map<Bytes, Entry>, es: seq<Entry>, e: Entry)
    requires Tabulates(t, es) && e.id !in t
    ensures Tabulates(t[e.id := e], es + [e])
  {
    var all := es + [e];
    forall id | id in t[e.id := e] ensures HasId(all, id) {
      if id == e.id {
        assert all[|es|].id == id;
      } else {
        var i :| 0 <= i < |es| && es[i].id == id;
        assert all[i].id == id;
      }
    }
  }

  lemma TabulatesUnique(t: map<Bytes, Entry>, u: map<Bytes, Entry>, es: seq<Entry>)
    requires Tabulates(t, es) && Tabulates(u, es)
    ensures t == u
  {
    forall id | id in t || id in u ensures id in t && id in u && t[id] == u[id] {
      assert HasId(es, id);
      var i :| 0 <= i < |es| && es[i].id == id;
    }
  }

  lemma TableReplace(es: seq<Entry>, i: nat, e: Entry)
    requires DistinctIds(es) && i < |es| && es[i].id == e.id
    ensures Table(es[i := e]) == Table(es)[e.id := e]
  {
    TableContents(es);
    var after, t := es[i := e], Table(es)[e.id := e];
    TableContents(after);
    forall id | id in t ensures HasId(after, id) {
      assert HasId(es, id);
      var k :| 0 <= k < |es| && es[k].id == id;
      assert after[k].id == id;
    }
    TabulatesUnique(t, Table(after), after);
  }

  lemma TableSplit(es: seq<Entry>, n: nat, k: nat)
    requires DistinctIds(es) && n <= k <= |es|
    ensures Table(es[..n]) + Table(es[n..k]) == Table(es[..k])
    ensures Table(es[..n]).Keys * Table(es[n..k]).Keys == {}
  {
    assert es[..k] == es[..n] + es[n..k];
    TableConcat(es[..n], es[n..k]);
  }

  lemma TableConcat(a: seq<Entry>, b: seq<Entry>)
    requires DistinctIds(a + b)
    ensures Table(a) + Table(b) == Table(a + b) && Table(a).Keys * Table(b).Keys == {}
  {
    hide Table;
    DistinctParts(a, b);
    TableContents(a);
    TableContents(b);
    TableContents(a + b);
    TabulatesConcat(Table(a), Table(b), a, b);
    TabulatesUnique(Table(a) + Table(b), Table(a + b), a + b);
  }

  lemma DistinctParts(a: seq<Entry>, b: seq<Entry>)
    requires DistinctIds(a + b)
    ensures DistinctIds(a) && DistinctIds(b)
    ensures forall id :: HasId(a, id) ==> !HasId(b, id)
  {
    var all := a + b;
    forall i, j | 0 <= i < j < |a| ensures a[i].id != a[j].id { assert all[i] == a[i] && all[j] == a[j]; }
    forall i, j | 0 <= i < j < |b| ensures b[i].id != b[j].id {
      assert all[|a| + i] == b[i] && all[|a| + j] == b[j];
    }
    forall i, j | 0 <= i < |a| && 0 <= j < |b| ensures a[i].id != b[j].id {
      assert all[i] == a[i] && all[|a| + j] == b[j];
    }
  }

  lemma TabulatesConcat(t: map<Bytes, Entry>, u: map<Bytes, Entry>, a: seq<Entry>, b: seq<Entry>)
    requires Tabulates(t, a) && Tabulates(u, b) && forall id :: HasId(a, id) ==> !HasId(b, id)
    ensures Tabulates(t + u, a + b) && t.Keys * u.Keys == {}
  {
    var all := a + b;
    forall i | 0 <= i < |all| ensures all[i].id in t + u && (t + u)[all[i].id] == all[i] {
      if i < |a| {
        assert HasId(a, all[i].id);
        assert all[i] == a[i];
      } else {
        assert all[i] == b[i - |a|];
      }
    }
    forall id | id in t + u ensures HasId(all, id) {
      if id in u {
        var j :| 0 <= j < |b| && b[j].id == id;
        assert all[|a| + j].id == id;
      } else {
        var i :| 0 <= i < |a| && a[i].id == id;
        assert all[i].id == id;
      }
    }
  }

  // ----- Requests arrive as they were meant

  lemma ParseNameOfBytes(s: Bytes, rest: Bytes)
    requires NameValid(s)
    ensures ParseName(NameBytes(s) + rest) == Some((s, rest))
  {
    var b := NameBytes(s) + rest;
    assert b[1..1 + |s|] == s && b[1 + |s|..] == rest;
  }

  lemma StartUnderstood(subsystem: Bytes, name: Bytes, subscribe: bool)
    requires NameValid(subsystem) && NameValid(name)
    ensures var c := StartCall(subsystem, name, subscribe); ParseRequest(c.opcode, c.body) == Start(subsystem, name, subscribe)
  {
    if subscribe {
      var body := TargetBytes(subsystem, name);
      ParseNameOfBytes(subsystem, NameBytes(name));
      assert NameBytes(name) == NameBytes(name) + [];
      ParseNameOfBytes(name, []);
      assert body[1..] == NameBytes(subsystem) + NameBytes(name);
    } else {
      GetUnderstood(subsystem, name, 0, 0);
    }
  }

  lemma GetUnderstood(subsystem: Bytes, name: Bytes, token: u32, first: u16)
    requires NameValid(subsystem) && NameValid(name) && (token == 0 ==> first == 0)
    ensures var c := ContinueCall(subsystem, name, token, first);
      ParseRequest(c.opcode, c.body) == if token != 0 then Continue(subsystem, name, token, first) else Start(subsystem, name, false)
  {
    hide Limit, Be, FromBe;
    var tail := Be(4, token) + Be(2, first);
    var body := TargetBytes(subsystem, name) + tail;
    ParseNameOfBytes(subsystem, NameBytes(name) + tail);
    ParseNameOfBytes(name, tail);
    assert body[1..] == NameBytes(subsystem) + (NameBytes(name) + tail);
    assert tail[..4] == Be(4, token) && tail[4..] == Be(2, first);
    Limits();
    FromBeOfHeld(4, token);
    FromBeOfHeld(2, first);
  }

  lemma DropUnderstood(id: u16)
    ensures ParseRequest(DropCall(id).opcode, DropCall(id).body) == Drop(id)
  {
    Limits();
    FromBeOfHeld(2, id);
    assert DropCall(id).body[1..] == Be(2, id);
  }
}
