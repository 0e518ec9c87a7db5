/**
 Progress: a snapshot is paged out completely in a bounded number of requests, and a ready
 subscription is heard within one round.
 */
module CacheProgress {
  import opened Words
  import opened CacheModel
  import opened CacheWire
  import opened CacheSession
  import opened CacheDelivery
  import opened CacheClient

  // ----- What else may happen between two pages

  /** One thing done to the session, while the registry is in whatever state it has come to. */
  datatype Move = Asked(m: Model, opcode: u8, body: Bytes, now: u64, capacity: nat) | Emitted(m: Model, now: u64, capacity: nat)

  predicate Shaped(v: Move) { |v.m.devices| == DEVICES_MAX }

  function Moved(s: Session, v: Move): Session
    requires |s.subs| == SUBSCRIPTIONS && Shaped(v)
  {
    match v
    case Asked(m, opcode, body, now, capacity) => Request(m, s, opcode, body, now, capacity).session
    case Emitted(m, now, capacity) => Emit(m, s, now, capacity).0
  }

  /** A token that is live is the one issued last. */
  predicate Issued(s: Session) { |s.subs| == SUBSCRIPTIONS && (s.token != 0 ==> s.token == s.lastToken) }

  /** No move reissues a token: where it is still the same, so is the snapshot it stands for. */
  lemma MovedKeeps(s: Session, v: Move)
    requires Issued(s) && Shaped(v)
    ensures var t := Moved(s, v); Issued(t) && (s.token != 0 && t.token == s.token ==> t.snapshot == s.snapshot)
  {
    match v
    case Asked(m, opcode, body, now, capacity) =>
      hide ParseRequest, ServePage, Snapshot;
      AskedKeeps(m, Expire(s, now), ParseRequest(opcode, body), now, capacity);
    case Emitted(m, now, capacity) =>
      hide Scan;
      ScanKeeps(m, Expire(s, now), now, SUBSCRIPTIONS);
  }

  lemma {:induction false} ScanKeeps(m: Model, s: Session, now: u64, tries: nat)
    requires |s.subs| == SUBSCRIPTIONS
    ensures var t := Scan(m, s, now, tries).0;
      |t.subs| == SUBSCRIPTIONS && t.token == s.token && t.lastToken == s.lastToken && t.snapshot == s.snapshot
    decreases tries
  {
    if tries > 0 {
      hide Poll;
      var k := s.roundRobin % SUBSCRIPTIONS;
      var p := Poll(m, s.subs[k], now);
      if !p.Ready? {
        ScanKeeps(m, s.(roundRobin := (s.roundRobin + 1) % 0x1_0000, subs := s.subs[k := p.sub]), now, tries - 1);
      }
    }
  }

  lemma ServeKeeps(s: Session, first: nat, capacity: nat)
    ensures var t := ServePage(s, first, capacity).session;
      |t.subs| == |s.subs| && t.token == s.token && t.lastToken == s.lastToken && t.snapshot == s.snapshot
  {
    hide FitCount;
  }

  lemma AskedKeeps(m: Model, s: Session, c: Command, now: u64, capacity: nat)
    requires |m.devices| == DEVICES_MAX && Issued(s)
    ensures var t := Execute(m, s, c, now, capacity).session; Issued(t) && (s.token != 0 && t.token == s.token ==> t.snapshot == s.snapshot)
  {
    hide ServePage, Snapshot;
    match c
    case Refused(_) =>
    case Drop(_) =>
    case Continue(_, _, _, first) => ServeKeeps(s, first, capacity);
    case Start(subsystem, name, subscribe) => StartKeeps(m, s, subsystem, name, subscribe, now, capacity);
  }

  lemma StartKeeps(m: Model, s: Session, subsystem: Bytes, name: Bytes, subscribe: bool, now: u64, capacity: nat)
    requires |m.devices| == DEVICES_MAX && Issued(s)
    ensures var t := StartSnapshot(m, s, subsystem, name, subscribe, now, capacity).session;
      Issued(t) && (s.token != 0 && t.token == s.token ==> t.snapshot == s.snapshot)
  {
    hide ServePage, Snapshot;
    if Snapshot(m, subsystem, name, now).Some? {
      var c := Snapshot(m, subsystem, name, now).value;
      var t := s.(snapshot := c.device, token := 0, snapshotSub := 0, progress := 0);
      ServeKeeps(Tokened(t, now), 0, capacity);
      var i := SlotFor(t.subs, c.handle);
      if i < |t.subs| {
        var id := if t.subs[i].id == 0 then (t.lastSub + 1) % 0x1_0000 else t.subs[i].id;
        var sub := Sub(id, c.handle, c.device.generation, c.device.revision, c.cursor, true, 0);
        var last := if t.subs[i].id == 0 then id else t.lastSub;
        ServeKeeps(Tokened(t.(subs := t.subs[i := sub], lastSub := last, snapshotSub := id), now), 0, capacity);
      }
    }
  }

  function AfterMoves(s: Session, moves: seq<Move>): (t: Session)
    requires Issued(s) && forall i :: 0 <= i < |moves| ==> Shaped(moves[i])
    ensures Issued(t)
    decreases |moves|
  {
    if moves == [] then s
    else
      MovedKeeps(s, moves[0]);
      AfterMoves(Moved(s, moves[0]), moves[1..])
  }

  /** The token outlives every one of these moves. */
  predicate Survives(s: Session, token: u32, moves: seq<Move>)
    requires Issued(s) && forall i :: 0 <= i < |moves| ==> Shaped(moves[i])
    decreases |moves|
  {
    s.token == token &&
    (moves == [] || (MovedKeeps(s, moves[0]); Survives(Moved(s, moves[0]), token, moves[1..])))
  }

  lemma {:induction false} SurvivedSame(s: Session, moves: seq<Move>)
    requires Issued(s) && s.token != 0 && (forall i :: 0 <= i < |moves| ==> Shaped(moves[i])) && Survives(s, s.token, moves)
    ensures AfterMoves(s, moves).token == s.token && AfterMoves(s, moves).snapshot == s.snapshot
    decreases |moves|
  {
    hide Moved;
    if moves != [] {
      MovedKeeps(s, moves[0]);
      SurvivedSame(Moved(s, moves[0]), moves[1..]);
    }
  }

  // ----- Paging

  /** What happens ahead of a page, and when and into how much room it is asked for. */
  datatype Leg = Leg(moves: seq<Move>, m: Model, now: u64, capacity: nat)

  predicate LegShaped(l: Leg) { |l.m.devices| == DEVICES_MAX && forall i :: 0 <= i < |l.moves| ==> Shaped(l.moves[i]) }

  predicate LegsShaped(legs: seq<Leg>) { forall i :: 0 <= i < |legs| ==> LegShaped(legs[i]) }

  /** Whose pages are asked for, under which token. */
  datatype Target = Target(subsystem: Bytes, name: Bytes, token: u32)

  predicate TargetValid(t: Target) { NameValid(t.subsystem) && NameValid(t.name) && t.token != 0 }

  /** The request for the page at `first`, as a move of its own. */
  function Asking(t: Target, first: u16, l: Leg): (v: Move)
    requires TargetValid(t) && LegShaped(l)
    ensures Shaped(v)
  {
    var c := ContinueCall(t.subsystem, t.name, t.token, first);
    Asked(l.m, c.opcode, c.body, l.now, l.capacity)
  }

  function Answered(s: Session, t: Target, first: u16, l: Leg): (r: Reply)
    requires Issued(s) && TargetValid(t) && LegShaped(l)
    ensures Issued(r.session)
  {
    var u, v := AfterMoves(s, l.moves), Asking(t, first, l);
    MovedKeeps(u, v);
    Request(v.m, u, v.opcode, v.body, v.now, v.capacity)
  }

  /** The pages a client gets by asking for `next` again and again, whatever happens in between. */
  function Walk(s: Session, t: Target, first: nat, legs: seq<Leg>): seq<Page>
    requires Issued(s) && TargetValid(t) && LegsShaped(legs)
    decreases |legs|
  {
    if legs == [] || first >= 0x1_0000 then []
    else
      var r := Answered(s, t, first, legs[0]);
      if r.page.None? then []
      else [r.page.value] + if r.page.value.Next() == LAST_PAGE then [] else Walk(r.session, t, r.page.value.Next(), legs[1..])
  }

  /** The token is live whenever a page is asked for. */
  predicate Living(s: Session, t: Target, first: nat, legs: seq<Leg>)
    requires Issued(s) && TargetValid(t) && LegsShaped(legs)
    decreases |legs|
  {
    legs == [] || first >= 0x1_0000 ||
    (&& Survives(s, t.token, legs[0].moves) && Expire(AfterMoves(s, legs[0].moves), legs[0].now).token == t.token
     && var r := Answered(s, t, first, legs[0]);
        r.page.Some? ==> Living(r.session, t, r.page.value.Next(), legs[1..]))
  }

  function Gathered(pages: seq<Page>): seq<Entry> {
    if pages == [] then [] else pages[0].entries + Gathered(pages[1..])
  }

  predicate Roomy(legs: seq<Leg>) { forall i :: 0 <= i < |legs| ==> legs[i].capacity >= PAGE_HEADER + MAX_ENTRY }

  function AtLeastOne(n: nat): nat { if n == 0 then 1 else n }

  /** The target names the frozen snapshot, in normal form. */
  ghost predicate Frozen(s: Session, t: Target) {
    s.token == t.token && s.snapshot.subsystem == t.subsystem && s.snapshot.name == t.name && NormalCatalog(s.snapshot.entries)
  }

  /** The request for a page of a live token is served from the snapshot. */
  lemma LegServed(s: Session, t: Target, first: u16, l: Leg)
    requires Issued(s) && TargetValid(t) && LegShaped(l) && Frozen(s, t) && first <= |s.snapshot.entries|
    requires Survives(s, t.token, l.moves) && Expire(AfterMoves(s, l.moves), l.now).token == t.token && l.capacity >= PAGE_HEADER + MAX_ENTRY
    ensures var r := Answered(s, t, first, l);
      && r.page.Some? && r.session.token == s.token && r.session.snapshot == s.snapshot
      && var p := r.page.value;
         && p.first == first && first + |p.entries| <= |s.snapshot.entries| && p.total == |s.snapshot.entries|
         && p.entries == s.snapshot.entries[first..first + |p.entries|]
         && (first < |s.snapshot.entries| ==> p.entries != [])
         && p.token == s.token && p.generation == s.snapshot.generation && p.revision == s.snapshot.revision
  {
    hide Survives, AfterMoves, ContinueSnapshot, NormalCatalog, ParseRequest, NameValid, StartSnapshot;
    SurvivedSame(s, l.moves);
    GetUnderstood(t.subsystem, t.name, t.token, first);
    PageAdvances(Expire(AfterMoves(s, l.moves), l.now), first, l.now, l.capacity);
  }

  /**
   Every resource of the frozen snapshot once and in order, in at most one page per resource, whatever requests,
   events and registry changes come between the pages, as long as the token lives.
   */
  lemma {:induction false} WalkGathersAll(s: Session, t: Target, first: nat, legs: seq<Leg>)
    requires Issued(s) && TargetValid(t) && LegsShaped(legs) && Frozen(s, t) && first <= |s.snapshot.entries|
    requires Roomy(legs) && |legs| >= AtLeastOne(|s.snapshot.entries| - first) && Living(s, t, first, legs)
    ensures var pages := Walk(s, t, first, legs);
      && 1 <= |pages| <= AtLeastOne(|s.snapshot.entries| - first)
      && Gathered(pages) == s.snapshot.entries[first..]
      && pages[|pages| - 1].Next() == LAST_PAGE
      && forall i :: 0 <= i < |pages| ==>
           pages[i].token == s.token && pages[i].generation == s.snapshot.generation && pages[i].revision == s.snapshot.revision
    decreases |legs|
  {
    hide Answered, Survives, AfterMoves, NormalCatalog, NameValid, Issued, Expire, Walk, Living, Gathered;
    var entries := s.snapshot.entries;
    CatalogShort(entries);
    WalkOn(s, t, first, legs);
    LegServed(s, t, first, legs[0]);
    var r := Answered(s, t, first, legs[0]);
    var p := r.page.value;
    assert p.entries + entries[first + |p.entries|..] == entries[first..];
    if p.Next() == LAST_PAGE {
      GatheredOn(p, []);
      assert entries[first + |p.entries|..] == [];
    } else {
      WalkGathersAll(r.session, t, p.Next(), legs[1..]);
      GatheredOn(p, Walk(r.session, t, p.Next(), legs[1..]));
    }
  }

  /** One page of the walk, and the walk behind it. */
  lemma WalkOn(s: Session, t: Target, first: nat, legs: seq<Leg>)
    requires Issued(s) && TargetValid(t) && LegsShaped(legs) && legs != [] && first < 0x1_0000 && Living(s, t, first, legs)
    ensures Survives(s, t.token, legs[0].moves) && Expire(AfterMoves(s, legs[0].moves), legs[0].now).token == t.token
    ensures var r := Answered(s, t, first, legs[0]);
      r.page.Some? ==>
        && Living(r.session, t, r.page.value.Next(), legs[1..])
        && Walk(s, t, first, legs) == [r.page.value] + if r.page.value.Next() == LAST_PAGE then [] else Walk(r.session, t, r.page.value.Next(), legs[1..])
  {
    hide Answered, Survives, AfterMoves, NameValid, Issued, Expire;
  }

  lemma GatheredOn(p: Page, pages: seq<Page>)
    ensures Gathered([p] + pages) == p.entries + Gathered(pages)
    ensures Gathered([]) == []
  {
    assert ([p] + pages)[1..] == pages;
  }

  lemma CatalogShort(entries: seq<Entry>)
    requires NormalCatalog(entries)
    ensures |entries| < 0x1_0000
  {
  }

  /** One page under a live token: the next stretch of the frozen snapshot, never empty before its end. */
  lemma PageAdvances(s: Session, first: nat, now: u64, capacity: nat)
    requires s.token != 0 && NormalCatalog(s.snapshot.entries) && first <= |s.snapshot.entries|
    requires capacity >= PAGE_HEADER + MAX_ENTRY
    ensures var r := ContinueSnapshot(s, s.snapshot.subsystem, s.snapshot.name, s.token, first, now, capacity);
      && r.page.Some? && r.session.token == s.token && r.session.snapshot == s.snapshot
      && var p := r.page.value;
         && p.first == first && first + |p.entries| <= |s.snapshot.entries| && p.total == |s.snapshot.entries|
         && p.entries == s.snapshot.entries[first..first + |p.entries|]
         && (first < |s.snapshot.entries| ==> p.entries != [])
         && p.token == s.token && p.generation == s.snapshot.generation && p.revision == s.snapshot.revision
  {
    var rest := s.snapshot.entries[first..];
    if rest != [] {
      assert NormalEntry(rest[0]);
      FitCountPositive(rest, capacity - PAGE_HEADER);
    }
  }

  // ----- Fair turns

  datatype Turn = Turn(model: Model, now: u64, capacity: nat)

  /** How many slots the scan passes before it reaches slot `k`. */
  function Distance(roundRobin: nat, k: nat): nat { (k + SUBSCRIPTIONS - roundRobin % SUBSCRIPTIONS) % SUBSCRIPTIONS }

  predicate ReadyAt(s: Session, t: Turn, k: nat)
    requires |s.subs| == SUBSCRIPTIONS && k < SUBSCRIPTIONS
  {
    t.capacity >= EVENT_HEADER + MAX_ENTRY && Poll(t.model, Expire(s, t.now).subs[k], t.now).Ready?
  }

  /** Slot `k` has something to say at each of the turns, whatever the registry does in between. */
  predicate ReadyThroughout(s: Session, turns: seq<Turn>, k: nat)
    requires |s.subs| == SUBSCRIPTIONS && k < SUBSCRIPTIONS
    decreases |turns|
  {
    turns == [] ||
    (ReadyAt(s, turns[0], k) && ReadyThroughout(Emit(turns[0].model, s, turns[0].now, turns[0].capacity).0, turns[1..], k))
  }

  function Emissions(s: Session, turns: seq<Turn>): seq<Option<Event>>
    requires |s.subs| == SUBSCRIPTIONS
    decreases |turns|
  {
    if turns == [] then []
    else
      var (t, e) := Emit(turns[0].model, s, turns[0].now, turns[0].capacity);
      [e] + Emissions(t, turns[1..])
  }

  lemma NextSlot(n: nat, k: nat)
    requires n < 0x1_0000 && k < SUBSCRIPTIONS
    ensures Distance(n, k) == 0 <==> n % SUBSCRIPTIONS == k
    ensures Distance(n, k) > 0 ==> Distance((n + 1) % 0x1_0000, k) == Distance(n, k) - 1
    ensures Distance(n, k) < SUBSCRIPTIONS
  {
    hide Distance;
    DistanceIs(n, k);
    DistanceIs((n + 1) % 0x1_0000, k);
    NextModulo(n);
  }

  lemma DistanceIs(n: nat, k: nat)
    requires k < SUBSCRIPTIONS
    ensures Distance(n, k) == if n % 8 <= k then k - n % 8 else k + 8 - n % 8
  {
    if n % 8 <= k {
      assert (k + 8 - n % 8) % 8 == k - n % 8;
    }
  }

  lemma NextModulo(n: nat)
    requires n < 0x1_0000
    ensures ((n + 1) % 0x1_0000) % 8 == if n % 8 == 7 then 0 else n % 8 + 1
  {
    if n == 0xFFFF {
    } else {
      assert (n + 1) % 0x1_0000 == n + 1;
    }
  }

  /** A scan stops at slot `k` or short of it; then it stands strictly nearer, and slot `k` is untouched. */
  lemma {:induction false} ScanReaches(m: Model, s: Session, now: u64, tries: nat, k: nat)
    requires |s.subs| == SUBSCRIPTIONS && k < SUBSCRIPTIONS && s.subs[k].id != 0
    requires Distance(s.roundRobin, k) < tries && Poll(m, s.subs[k], now).Ready?
    ensures var (t, e) := Scan(m, s, now, tries);
      && e.Some?
      && (e.value.sub == s.subs[k].id
          || (Distance(t.roundRobin, k) < Distance(s.roundRobin, k) && t.subs[k] == s.subs[k]))
    decreases tries
  {
    var i := s.roundRobin % SUBSCRIPTIONS;
    NextSlot(s.roundRobin, k);
    var p := Poll(m, s.subs[i], now);
    if i != k && p.Quiet? {
      ScanReaches(m, Polled1(s, i, p.sub), now, tries - 1, k);
    }
  }

  lemma EmitReaches(s: Session, t: Turn, k: nat)
    requires |s.subs| == SUBSCRIPTIONS && k < SUBSCRIPTIONS && s.subs[k].id != 0 && ReadyAt(s, t, k)
    ensures var (u, e) := Emit(t.model, s, t.now, t.capacity);
      && e.Some?
      && (e.value.sub == s.subs[k].id
          || (Distance(u.roundRobin, k) < Distance(s.roundRobin, k) && u.subs[k].id == s.subs[k].id))
  {
    NextSlot(s.roundRobin, k);
    hide Poll, Distance;
    ScanReaches(t.model, Expire(s, t.now), t.now, SUBSCRIPTIONS, k);
  }

  /** A subscription that stays ready is heard by its turn in the round, the eighth at the latest. */
  lemma {:induction false} HeardWithinOneRound(s: Session, turns: seq<Turn>, k: nat)
    requires |s.subs| == SUBSCRIPTIONS && k < SUBSCRIPTIONS && s.subs[k].id != 0
    requires |turns| > Distance(s.roundRobin, k) && ReadyThroughout(s, turns, k)
    ensures Distance(s.roundRobin, k) < SUBSCRIPTIONS
    ensures exists i :: 0 <= i <= Distance(s.roundRobin, k) && i < |Emissions(s, turns)| && Names(Emissions(s, turns)[i], s.subs[k].id)
    decreases |turns|
  {
    var t := turns[0];
    var (u, e) := Emit(t.model, s, t.now, t.capacity);
    EmitReaches(s, t, k);
    NextSlot(s.roundRobin, k);
    hide Emit, Distance, ReadyAt;
    var all := Emissions(s, turns);
    assert all[0] == e;
    if e.value.sub == s.subs[k].id {
      assert Names(all[0], s.subs[k].id);
    } else {
      HeardWithinOneRound(u, turns[1..], k);
      var i :| 0 <= i <= Distance(u.roundRobin, k) && i < |Emissions(u, turns[1..])| && Names(Emissions(u, turns[1..])[i], u.subs[k].id);
      assert Names(all[i + 1], s.subs[k].id);
    }
  }

  predicate Names(e: Option<Event>, id: u16) { e.Some? && e.value.sub == id }
}
