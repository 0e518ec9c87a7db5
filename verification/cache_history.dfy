/**
 Every state each device has ever been in, indexed by generation and revision, and what the
 registry and its journal keep true of that record.
 */
module CacheHistory {
  import opened Words
  import opened Statuses
  import opened CacheModel

  /** What a client is meant to see of a device. */
  datatype View = View(entries: seq<Entry>, presence: nat)

  /** One generation of one device: the view at each revision so far. */
  datatype Past = Past(subsystem: Bytes, name: Bytes, handle: u16, views: seq<View>)

  type History = map<nat, Past>

  const LAST_GENERATION := 0xFFFF_FFFF

  function ViewOf(d: Device): View { View(d.entries, d.presence) }

  function ChangedEntries(c: Change): seq<Entry> { if c.kind == CHANGE then [c.entry] else [] }

  ghost predicate Replaces(before: seq<Entry>, after: seq<Entry>, e: Entry) {
    exists i :: 0 <= i < |before| && before[i].id == e.id && before[i].widthBits == e.widthBits && after == before[i := e]
  }

  /** `after` is `before` with exactly the announced change made. */
  ghost predicate StepTo(before: View, after: View, kind: nat, presence: nat, entries: seq<Entry>) {
    && after.presence == presence
    && (if kind == CHANGE then |entries| == 1 && Replaces(before.entries, after.entries, entries[0])
        else kind == PRESENCE && entries == [] && after.entries == before.entries)
  }

  ghost predicate NormalView(v: View) { NormalCatalog(v.entries) && v.presence <= PRESENCE_UNAVAILABLE }

  ghost predicate NormalPast(p: Past, newest: nat) {
    && NameValid(p.subsystem) && NameValid(p.name) && 1 <= p.handle <= DEVICES_MAX
    && 0 < |p.views| <= newest + 1
    && forall r :: 0 <= r < |p.views| ==> NormalView(p.views[r])
  }

  ghost predicate Kept(h: History, slot: nat, d: Device) {
    && d.generation in h
    && var p := h[d.generation];
       p.subsystem == d.subsystem && p.name == d.name && p.handle == slot + 1
       && |p.views| == d.revision + 1 && p.views[d.revision] == ViewOf(d)
  }

  ghost predicate Recorded(h: History, c: Change) {
    && c.generation in h
    && var p := h[c.generation];
       p.handle == c.handle && 1 <= c.revision < |p.views|
       && StepTo(p.views[c.revision - 1], p.views[c.revision], c.kind, c.presence, ChangedEntries(c))
  }

  ghost predicate Faithful(m: Model, h: History) {
    && WellFormed(m)
    && (forall g :: g in h ==> 0 < g <= m.generation && NormalPast(h[g], |m.log|))
    && (forall i :: 0 <= i < DEVICES_MAX && m.devices[i].generation != 0 ==> Kept(h, i, m.devices[i]))
    && (forall i :: 0 <= i < |m.log| ==> Recorded(h, m.log[i]))
  }

  /** The record after a successful definition of the device in the slot of `handle`. */
  function Begun(h: History, after: Model, handle: u16): History
    requires 1 <= handle <= |after.devices|
  {
    var d := after.devices[handle - 1];
    h[d.generation := Past(d.subsystem, d.name, handle, [ViewOf(d)])]
  }

  /** The record after one more revision of the device in the slot of `handle`. */
  function Extended(h: History, after: Model, handle: u16): History
    requires 1 <= handle <= |after.devices|
  {
    var d := after.devices[handle - 1];
    if d.generation in h then h[d.generation := h[d.generation].(views := h[d.generation].views + [ViewOf(d)])] else h
  }

  /** Whatever has been recorded stays recorded. */
  ghost predicate Grown(h: History, k: History) {
    forall g :: g in h ==>
      && g in k && h[g].handle == k[g].handle && h[g].subsystem == k[g].subsystem && h[g].name == k[g].name
      && |h[g].views| <= |k[g].views| && k[g].views[..|h[g].views|] == h[g].views
  }

  lemma ViewKept(h: History, k: History, g: nat, r: nat)
    requires Grown(h, k) && g in h && r < |h[g].views|
    ensures g in k && r < |k[g].views| && k[g].views[r] == h[g].views[r]
  {
    assert k[g].views[..|h[g].views|][r] == h[g].views[r];
  }

  lemma RecordKept(h: History, k: History, c: Change)
    requires Grown(h, k) && Recorded(h, c)
    ensures Recorded(k, c)
  {
    ViewKept(h, k, c.generation, c.revision);
    ViewKept(h, k, c.generation, c.revision - 1);
  }

  lemma DefineIsFaithful(m: Model, h: History, handle: u16, subsystem: Bytes, name: Bytes, presence: nat,
                         described: seq<Entry>)
    requires Faithful(m, h) && m.generation < LAST_GENERATION
    ensures var r := Define(m, handle, subsystem, name, presence, described);
      var k := if r.status == Ok then Begun(h, r.model, r.handle) else h;
      Faithful(r.model, k) && Grown(h, k) && (if r.status == Ok then Redefined(m, r.model, r.handle) else r.model == m)
  {
    var r := Define(m, handle, subsystem, name, presence, described);
    DefineKeepsWellFormed(m, handle, subsystem, name, presence, described);
    if r.status == Ok {
      BeginIsFaithful(m, h, r.model, r.handle);
    }
  }

  /** One slot took a new catalog under a generation never used before. */
  ghost predicate Redefined(m: Model, after: Model, handle: u16) {
    && |m.devices| == |after.devices| && 1 <= handle <= |m.devices|
    && var d := after.devices[handle - 1];
       && after == Model(m.devices[handle - 1 := d], d.generation, m.log)
       && d.generation == m.generation + 1 && d.revision == 0
  }

  lemma BeginIsFaithful(m: Model, h: History, after: Model, handle: u16)
    requires Faithful(m, h) && WellFormed(after) && Redefined(m, after, handle)
    ensures Faithful(after, Begun(h, after, handle)) && Grown(h, Begun(h, after, handle))
  {
    var k := Begun(h, after, handle);
    var d := after.devices[handle - 1];
    assert d.generation !in h;
    assert NormalDevice(d) && NormalView(ViewOf(d));
    assert Grown(h, k);
    forall g | g in k ensures 0 < g <= after.generation && NormalPast(k[g], |after.log|) {
      assert g == d.generation || g in h;
    }
    forall i | 0 <= i < DEVICES_MAX && after.devices[i].generation != 0 ensures Kept(k, i, after.devices[i]) {
      assert i == handle - 1 || Kept(h, i, m.devices[i]);
    }
    forall i | 0 <= i < |m.log| ensures Recorded(k, m.log[i]) { RecordKept(h, k, m.log[i]); }
  }

  lemma PutIsFaithful(m: Model, h: History, handle: u16, index: nat, value: u64, valid: int, source: nat,
                      updatedMs: u64, now: u64)
    requires Faithful(m, h)
    ensures var after := Put(m, handle, index, value, valid, source, updatedMs, now).1;
      var k := if after.log != m.log then Extended(h, after, handle) else h;
      Faithful(after, k) && Grown(h, k) && (after == m || (after.log != m.log && OneMore(m, after, handle)))
  {
    var after := Put(m, handle, index, value, valid, source, updatedMs, now).1;
    PutKeepsWellFormed(m, handle, index, value, valid, source, updatedMs, now);
    if after.log != m.log {
      var d, d' := m.devices[handle - 1], after.devices[handle - 1];
      assert d'.entries == d.entries[index := d'.entries[index]];
      assert Replaces(d.entries, d'.entries, d'.entries[index]);
      AppendIsFaithful(m, h, after, handle);
    }
  }

  lemma SetPresenceIsFaithful(m: Model, h: History, handle: u16, presence: nat, now: u64)
    requires Faithful(m, h)
    ensures var after := SetPresence(m, handle, presence, now).1;
      var k := if after.log != m.log then Extended(h, after, handle) else h;
      Faithful(after, k) && Grown(h, k) && (after == m || (after.log != m.log && OneMore(m, after, handle)))
  {
    var after := SetPresence(m, handle, presence, now).1;
    SetPresenceKeepsWellFormed(m, handle, presence, now);
    if after.log != m.log {
      AppendIsFaithful(m, h, after, handle);
    }
  }

  /** The journal entry of one more revision. */
  ghost predicate OneMore(m: Model, after: Model, handle: u16) {
    && Live(m, handle) && |after.devices| == |m.devices| && |after.log| == |m.log| + 1
    && var c, d, d' := after.log[|m.log|], m.devices[handle - 1], after.devices[handle - 1];
       && after == Model(m.devices[handle - 1 := d'], m.generation, m.log + [c])
       && c.handle == handle && c.generation == d.generation && c.revision == d.revision + 1
       && d'.generation == d.generation && d'.revision == d.revision + 1
       && d'.subsystem == d.subsystem && d'.name == d.name
       && StepTo(ViewOf(d), ViewOf(d'), c.kind, c.presence, ChangedEntries(c))
  }

  lemma AppendIsFaithful(m: Model, h: History, after: Model, handle: u16)
    requires Faithful(m, h) && WellFormed(after) && OneMore(m, after, handle)
    ensures Faithful(after, Extended(h, after, handle)) && Grown(h, Extended(h, after, handle))
  {
    var k := Extended(h, after, handle);
    var d, d' := m.devices[handle - 1], after.devices[handle - 1];
    assert Kept(h, handle - 1, d) && NormalView(ViewOf(d'));
    forall i | 0 <= i < DEVICES_MAX && after.devices[i].generation != 0 ensures Kept(k, i, after.devices[i]) {
      assert Kept(h, i, m.devices[i]);
    }
    forall i | 0 <= i < |m.log| ensures Recorded(k, m.log[i]) { RecordKept(h, k, m.log[i]); }
    assert Recorded(k, after.log[|m.log|]);
  }

  // ----- What a cursor into the journal has not seen yet

  function Unseen(log: seq<Change>, handle: u16, cursor: nat): (u: seq<Change>)
    requires cursor <= |log|
    decreases |log| - cursor
  {
    if cursor == |log| then []
    else (if log[cursor].handle == handle then [log[cursor]] else []) + Unseen(log, handle, cursor + 1)
  }

  lemma {:induction false} UnseenAppend(log: seq<Change>, c: Change, handle: u16, cursor: nat)
    requires cursor <= |log|
    ensures Unseen(log + [c], handle, cursor) == Unseen(log, handle, cursor) + if c.handle == handle then [c] else []
    decreases |log| - cursor
  {
    if cursor < |log| {
      UnseenAppend(log, c, handle, cursor + 1);
    } else {
      assert Unseen(log + [c], handle, |log| + 1) == [];
    }
  }

  /** Reading the journal takes the unseen changes one at a time and skips none. */
  lemma {:induction false} NextTakesFirstUnseen(log: seq<Change>, handle: u16, cursor: nat)
    requires cursor <= |log|
    ensures match NextIn(log, handle, cursor)
            case CaughtUp => Unseen(log, handle, cursor) == []
            case Delivered(c, after) => Unseen(log, handle, cursor) == [c] + Unseen(log, handle, after)
            case Resync(_) => false
    decreases |log| - cursor
  {
    if cursor < |log| && log[cursor].handle != handle {
      NextTakesFirstUnseen(log, handle, cursor + 1);
    }
  }

  /** A reader at `revision` of `generation` whose unseen changes lead, one by one, to the present. */
  ghost predicate InStep(m: Model, handle: u16, generation: nat, revision: nat, cursor: nat) {
    && Live(m, handle) && cursor <= |m.log|
    && var u := Unseen(m.log, handle, cursor);
       && m.devices[handle - 1].revision == revision + |u|
       && forall k :: 0 <= k < |u| ==> u[k].generation == generation && u[k].revision == revision + 1 + k
                                       && u[k] in m.log
  }

  lemma InStepAppend(m: Model, after: Model, changed: u16, handle: u16, generation: nat, revision: nat, cursor: nat)
    requires OneMore(m, after, changed)
    requires InStep(m, handle, generation, revision, cursor) && m.devices[handle - 1].generation == generation
    ensures InStep(after, handle, generation, revision, cursor)
  {
    UnseenAppend(m.log, after.log[|m.log|], handle, cursor);
  }
}
