/**
 The bridge between the MDIO service and the cache registry: what the service believes to be shown of its devices is
 what the registry holds, through every put, change of presence and definition the bridge makes.
 */
module MdioBridge {
  import opened Words
  import opened Statuses
  import CacheModel
  import ProfileModel
  import ProfilePrinter
  import ProfileRoundTrip
  import MdioConfig
  import MdioService

  const WIDTH := 16

  /** Where each device is shown, and under which names it and its registers. */
  datatype Place = Place(handle: u16, name: Bytes, ids: seq<Bytes>)

  /** Nothing is shown of an invalid register. */
  predicate Proper(s: MdioService.Shown) {
    s.source <= MdioService.FROM_DEVICE && (s.valid || s == MdioService.Shown(0, false, 0, 0))
  }

  /** A register as the registry describes it. */
  function Described(s: MdioService.Shown, id: Bytes): CacheModel.Entry
    requires Proper(s)
  {
    CacheModel.Entry(id, s.value, s.updatedMs, WIDTH, if s.valid then 1 else 0, s.source)
  }

  /** The catalog of one device as the service believes it to be. */
  ghost predicate Displays(m: CacheModel.Model, p: Place, shown: seq<MdioService.Shown>, presence: nat) {
    && CacheModel.Live(m, p.handle) && |p.ids| == |shown|
    && var d := m.devices[p.handle - 1];
       && d.subsystem == Text("mdio") && d.name == p.name && d.presence == presence && |d.entries| == |shown|
       && forall r :: 0 <= r < |shown| ==> Proper(shown[r]) && d.entries[r] == Described(shown[r], p.ids[r])
  }

  /** All devices, each in a place of its own. */
  ghost predicate DisplaysAll(m: CacheModel.Model, places: seq<Place>, registry: seq<seq<MdioService.Shown>>, presence: seq<nat>) {
    && |places| == |registry| == |presence|
    && (forall i, j :: 0 <= i < j < |places| ==> places[i].handle != places[j].handle)
    && forall d :: 0 <= d < |places| ==> Displays(m, places[d], registry[d], presence[d])
  }

  function Origin(seeded: bool): nat { if seeded then MdioService.FROM_SETTINGS else MdioService.FROM_DEVICE }

  /** The put the bridge makes of a cache entry. */
  function PutOf(m: CacheModel.Model, handle: u16, r: u8, e: MdioService.Entry, now: u64): (Status, CacheModel.Model) {
    CacheModel.Put(m, handle, r, e.value, if e.valid then 1 else 0, Origin(e.seeded), e.updatedMs, now)
  }

  lemma WordFits(v: u16)
    ensures CacheModel.Fits(v, WIDTH)
  {
    hide Pow2;
    Pow2Sixteen(0);
  }

  /** Telling the registry about a register shows exactly what the service takes it to show. */
  lemma PutShows(m: CacheModel.Model, p: Place, shown: seq<MdioService.Shown>, presence: nat, row: MdioService.Row, r: u8, now: u64)
    requires Displays(m, p, shown, presence) && r < |shown| <= MdioConfig.REGISTERS
    ensures var (status, after) := PutOf(m, p.handle, r, row[r], now);
      && status == Ok && Displays(after, p, MdioService.Told(shown, row, r), presence)
      && |after.devices| == |m.devices| && forall h :: 0 <= h < |m.devices| && h + 1 != p.handle ==> after.devices[h] == m.devices[h]
  {
    hide Pow2;
    WordFits(row[r].value);
  }

  lemma PresenceShows(m: CacheModel.Model, p: Place, shown: seq<MdioService.Shown>, presence: nat, next: nat, now: u64)
    requires Displays(m, p, shown, presence) && next <= CacheModel.PRESENCE_UNAVAILABLE
    ensures var (status, after) := CacheModel.SetPresence(m, p.handle, next, now);
      && status == Ok && Displays(after, p, shown, next)
      && |after.devices| == |m.devices| && forall h :: 0 <= h < |m.devices| && h + 1 != p.handle ==> after.devices[h] == m.devices[h]
  {
  }

  /** What the bridge describes of a device: its cached registers under its ids. */
  function Catalog(row: MdioService.Row, ids: seq<Bytes>): (es: seq<CacheModel.Entry>)
    requires |ids| <= MdioConfig.REGISTERS
    ensures |es| == |ids|
    ensures forall r :: 0 <= r < |ids| ==>
              es[r] == CacheModel.Entry(ids[r], row[r].value, row[r].updatedMs, WIDTH, if row[r].valid then 1 else 0, Origin(row[r].seeded))
  {
    seq(|ids|, r requires 0 <= r < |ids| =>
          CacheModel.Entry(ids[r], row[r].value, row[r].updatedMs, WIDTH, if row[r].valid then 1 else 0, Origin(row[r].seeded)))
  }

  /** A definition that succeeds shows exactly what the service takes a redescribed device to show. */
  lemma DefineShows(m: CacheModel.Model, handle: u16, name: Bytes, presence: nat, row: MdioService.Row, ids: seq<Bytes>)
    requires |m.devices| == CacheModel.DEVICES_MAX && |ids| <= MdioConfig.REGISTERS
    ensures var r := CacheModel.Define(m, handle, Text("mdio"), name, presence, Catalog(row, ids));
      r.status == Ok ==>
        && Displays(r.model, Place(r.handle, name, ids), MdioService.Described(row, |ids|), presence)
        && |r.model.devices| == |m.devices|
        && forall h :: 0 <= h < |m.devices| && h + 1 != r.handle ==> r.model.devices[h] == m.devices[h]
  {
    hide CacheModel.Define, MdioService.Described, CacheModel.NormalizedAll, Text, MdioService.Show, CacheModel.Normalized;
    var entries := Catalog(row, ids);
    var r := CacheModel.Define(m, handle, Text("mdio"), name, presence, entries);
    Defined(m, handle, name, presence, entries);
    if r.status == Ok {
      forall i | 0 <= i < |ids|
        ensures Proper(MdioService.Show(row[i])) && CacheModel.Normalized(entries[i]) == Described(MdioService.Show(row[i]), ids[i])
      {
        EntryShown(row[i], ids[i]);
      }
    }
  }

  lemma EntryShown(e: MdioService.Entry, id: Bytes)
    ensures var s := MdioService.Show(e);
      && Proper(s)
      && CacheModel.Normalized(CacheModel.Entry(id, e.value, e.updatedMs, WIDTH, if e.valid then 1 else 0, Origin(e.seeded))) == Described(s, id)
  {
  }

  /** Where a successful definition leaves its catalog. */
  lemma Defined(m: CacheModel.Model, handle: u16, name: Bytes, presence: nat, entries: seq<CacheModel.Entry>)
    requires |m.devices| == CacheModel.DEVICES_MAX
    ensures var r := CacheModel.Define(m, handle, Text("mdio"), name, presence, entries);
      r.status == Ok ==>
        && 1 <= r.handle <= CacheModel.DEVICES_MAX && presence <= CacheModel.PRESENCE_UNAVAILABLE
        && r.model.devices ==
           m.devices[r.handle - 1 := CacheModel.Device(Text("mdio"), name, CacheModel.NextNonZero(m.generation), 0, 0, presence,
                                                       CacheModel.NormalizedAll(entries))]
  {
    hide CacheModel.CatalogValid, CacheModel.Clash, CacheModel.NameValid, CacheModel.NormalizedAll, CacheModel.SameTarget, Text;
  }

  /** One device's place changes and all others are left alone. */
  lemma OthersDisplayed(m: CacheModel.Model, after: CacheModel.Model, places: seq<Place>, registry: seq<seq<MdioService.Shown>>,
                        presence: seq<nat>, d: nat, shown: seq<MdioService.Shown>, next: nat)
    requires DisplaysAll(m, places, registry, presence) && d < |places| && Displays(after, places[d], shown, next)
    requires |after.devices| == |m.devices|
    requires forall h :: 0 <= h < |m.devices| && h + 1 != places[d].handle ==> after.devices[h] == m.devices[h]
    ensures DisplaysAll(after, places, registry[d := shown], presence[d := next])
  {
    forall i | 0 <= i < |places| ensures Displays(after, places[i], registry[d := shown][i], presence[d := next][i]) {
      if i != d {
        assert places[i].handle != places[d].handle;
        assert after.devices[places[i].handle - 1] == m.devices[places[i].handle - 1];
      }
    }
  }

  // ----- The three callbacks

  datatype Callback =
    | Told(d: nat, r: u8, row: MdioService.Row, now: u64)
    | Came(d: nat, next: nat, now: u64)
    | Redefined(d: nat, name: Bytes, online: bool, row: MdioService.Row, ids: seq<Bytes>)

  datatype View = View(places: seq<Place>, registry: seq<seq<MdioService.Shown>>, presence: seq<nat>)

  predicate Apt(c: Callback, v: View) {
    && |v.places| == |v.registry| == |v.presence| && c.d < |v.places| && |v.registry[c.d]| <= MdioConfig.REGISTERS
    && match c
       case Told(_, r, _, _) => r < MdioConfig.REGISTERS
       case Came(_, next, _) => next <= CacheModel.PRESENCE_UNAVAILABLE
       case Redefined(_, _, _, _, ids) => |ids| <= MdioConfig.REGISTERS
  }

  function Presence(online: bool): nat { if online then MdioService.PRESENCE_READY else 0 }

  /** What the bridge does to the registry, with the status it gets. */
  ghost function Bridged(m: CacheModel.Model, c: Callback, v: View): (Status, CacheModel.Model)
    requires |m.devices| == CacheModel.DEVICES_MAX && Apt(c, v)
  {
    var p := v.places[c.d];
    match c
    case Told(d, r, row, now) => if r < |v.registry[d]| then PutOf(m, p.handle, r, row[r], now) else (Ok, m)
    case Came(_, next, now) => CacheModel.SetPresence(m, p.handle, next, now)
    case Redefined(_, name, online, row, ids) =>
      var r := CacheModel.Define(m, p.handle, Text("mdio"), name, Presence(online), Catalog(row, ids));
      (r.status, r.model)
  }

  /** What the service takes the registry to show afterwards. */
  function Believed(c: Callback, v: View): View
    requires Apt(c, v)
  {
    match c
    case Told(d, r, row, _) => v.(registry := v.registry[d := MdioService.Told(v.registry[d], row, r)])
    case Came(d, next, _) => v.(presence := v.presence[d := next])
    case Redefined(d, name, online, row, ids) =>
      View(v.places[d := v.places[d].(name := name, ids := ids)], v.registry[d := MdioService.Described(row, |ids|)], v.presence[d := Presence(online)])
  }

  /** The service's belief stays true through every callback; puts and changes of presence never fail. */
  lemma BeliefHolds(m: CacheModel.Model, c: Callback, v: View)
    requires |m.devices| == CacheModel.DEVICES_MAX && Apt(c, v) && DisplaysAll(m, v.places, v.registry, v.presence)
    ensures var (status, after) := Bridged(m, c, v);
      && (!c.Redefined? ==> status == Ok)
      && (status == Ok ==> var w := Believed(c, v); DisplaysAll(after, w.places, w.registry, w.presence))
      && (status != Ok ==> after == m)
  {
    hide CacheModel.Define, CacheModel.Put, CacheModel.SetPresence, Displays, MdioService.Told, MdioService.Described, Text;
    var p := v.places[c.d];
    match c
    case Told(d, r, row, now) =>
      assert Displays(m, p, v.registry[d], v.presence[d]);
      if r < |v.registry[d]| {
        PutShows(m, p, v.registry[d], v.presence[d], row, r, now);
        OthersDisplayed(m, PutOf(m, p.handle, r, row[r], now).1, v.places, v.registry, v.presence, d, MdioService.Told(v.registry[d], row, r),
                        v.presence[d]);
        assert v.presence[d := v.presence[d]] == v.presence;
      } else {
        NothingTold(v.registry[d], row, r);
        assert v.registry[d := v.registry[d]] == v.registry;
      }
    case Came(d, next, now) =>
      assert Displays(m, p, v.registry[d], v.presence[d]);
      PresenceShows(m, p, v.registry[d], v.presence[d], next, now);
      OthersDisplayed(m, CacheModel.SetPresence(m, p.handle, next, now).1, v.places, v.registry, v.presence, d, v.registry[d], next);
      assert v.registry[d := v.registry[d]] == v.registry;
    case Redefined(d, name, online, row, ids) => RedefinedHolds(m, v, d, name, online, row, ids);
  }

  lemma NothingTold(shown: seq<MdioService.Shown>, row: MdioService.Row, r: u8)
    requires r < MdioConfig.REGISTERS && r >= |shown|
    ensures MdioService.Told(shown, row, r) == shown
  {
  }

  lemma DefineInPlace(m: CacheModel.Model, handle: u16, name: Bytes, presence: nat, entries: seq<CacheModel.Entry>)
    requires |m.devices| == CacheModel.DEVICES_MAX && handle != 0
    ensures var r := CacheModel.Define(m, handle, Text("mdio"), name, presence, entries);
      r.handle == handle && (r.status != Ok ==> r.model == m)
  {
    hide CacheModel.CatalogValid, CacheModel.Clash, CacheModel.NameValid, Text;
  }

  lemma RedefinedHolds(m: CacheModel.Model, v: View, d: nat, name: Bytes, online: bool, row: MdioService.Row, ids: seq<Bytes>)
    requires |m.devices| == CacheModel.DEVICES_MAX && DisplaysAll(m, v.places, v.registry, v.presence)
    requires Apt(Redefined(d, name, online, row, ids), v)
    ensures var (status, after) := Bridged(m, Redefined(d, name, online, row, ids), v);
      && (status == Ok ==> var w := Believed(Redefined(d, name, online, row, ids), v); DisplaysAll(after, w.places, w.registry, w.presence))
      && (status != Ok ==> after == m)
  {
    hide CacheModel.Define, MdioService.Described, Text;
    var p := v.places[d];
    assert Displays(m, p, v.registry[d], v.presence[d]);
    var r := CacheModel.Define(m, p.handle, Text("mdio"), name, Presence(online), Catalog(row, ids));
    DefineShows(m, p.handle, name, Presence(online), row, ids);
    DefineInPlace(m, p.handle, name, Presence(online), Catalog(row, ids));
    if r.status == Ok {
      var w := Believed(Redefined(d, name, online, row, ids), v);
      forall i | 0 <= i < |w.places| ensures Displays(r.model, w.places[i], w.registry[i], w.presence[i]) {
        if i != d {
          assert Displays(m, v.places[i], v.registry[i], v.presence[i]) && v.places[i].handle != p.handle;
          assert r.model.devices[v.places[i].handle - 1] == m.devices[v.places[i].handle - 1];
        }
      }
    }
  }

  // ----- When a definition succeeds

  /** The ids the bridge gives to the registers of a device. */
  function BridgeIds(m: ProfileModel.Meta, count: nat): (ids: seq<Bytes>)
    requires count <= 256
  {
    if m.version == 2 then m.ids else ProfilePrinter.RegIds(count)
  }

  ghost predicate IdsFit(ids: seq<Bytes>) {
    && |ids| <= MdioConfig.REGISTERS && (forall i :: 0 <= i < |ids| ==> CacheModel.NameValid(ids[i]))
    && forall i, j :: 0 <= i < j < |ids| ==> ids[i] != ids[j]
  }

  /** They are what the registry asks for, whether a profile gives them or not. */
  lemma BridgeIdsFit(m: ProfileModel.Meta, count: nat)
    requires count <= MdioConfig.REGISTERS && ProfileModel.MetaValid(m, count)
    ensures |BridgeIds(m, count)| == count && IdsFit(BridgeIds(m, count))
  {
    hide ProfilePrinter.RegIds, ProfileModel.IdValid, CacheModel.NameValid, ProfileModel.ClassValid, ProfileModel.RegisterMapName,
      ProfileModel.ViewName, ProfileModel.IdsSize;
    ProfileRoundTrip.RegIdsValid(count);
    var ids := BridgeIds(m, count);
    forall i | 0 <= i < |ids| ensures CacheModel.NameValid(ids[i]) { IdNames(ids[i]); }
  }

  lemma IdNames(id: Bytes)
    requires ProfileModel.IdValid(id)
    ensures CacheModel.NameValid(id)
  {
    forall i | 0 <= i < |id| ensures CacheModel.NameChar(id[i]) { assert ProfileModel.IdChar(id[i]); }
  }

  lemma SafeNames(name: Bytes)
    requires MdioConfig.SafeName(name)
    ensures CacheModel.NameValid(name)
  {
    forall i | 0 <= i < |name| ensures CacheModel.NameChar(name[i]) { assert MdioConfig.SafeChar(name[i]); }
  }

  lemma BusNamed()
    ensures CacheModel.NameValid(Text("mdio"))
  {
  }

  lemma CatalogFits(row: MdioService.Row, ids: seq<Bytes>)
    requires IdsFit(ids)
    ensures CacheModel.CatalogValid(Catalog(row, ids)) && |Catalog(row, ids)| <= CacheModel.RESOURCES_MAX
  {
    hide CacheModel.NameValid, CacheModel.Fits;
    var es := Catalog(row, ids);
    forall i | 0 <= i < |es| ensures CacheModel.Describable(es[i]) { WordFits(row[i].value); }
  }

  /** The status of every definition the bridge makes: nothing but the handle, the name and the room can stand against it. */
  lemma DefineVerdict(m: CacheModel.Model, handle: u16, name: Bytes, presence: nat, row: MdioService.Row, ids: seq<Bytes>)
    requires |m.devices| == CacheModel.DEVICES_MAX && MdioConfig.SafeName(name) && IdsFit(ids) && presence <= CacheModel.PRESENCE_UNAVAILABLE
    ensures CacheModel.Define(m, handle, Text("mdio"), name, presence, Catalog(row, ids)).status ==
            if handle != 0 && !CacheModel.Live(m, handle) then NotFound
            else if CacheModel.Clash(m, handle, Text("mdio"), name) then Denied
            else if handle == 0 && CacheModel.FirstFree(m.devices) == CacheModel.DEVICES_MAX then Busy
            else Ok
  {
    hide CacheModel.NameValid, CacheModel.CatalogValid, CacheModel.Clash, MdioConfig.SafeName, IdsFit, Text, CacheModel.FirstFree;
    SafeNames(name);
    BusNamed();
    CatalogFits(row, ids);
  }

  /** A device shown under its name is defined again under it without fail. */
  lemma RedefineSucceeds(m: CacheModel.Model, p: Place, shown: seq<MdioService.Shown>, before: nat, presence: nat, row: MdioService.Row, ids: seq<Bytes>)
    requires CacheModel.WellFormed(m) && Displays(m, p, shown, before) && MdioConfig.SafeName(p.name) && IdsFit(ids)
    requires presence <= CacheModel.PRESENCE_UNAVAILABLE
    ensures CacheModel.Define(m, p.handle, Text("mdio"), p.name, presence, Catalog(row, ids)).status == Ok
  {
    hide CacheModel.Define, CacheModel.NormalDevice, CacheModel.NormalChange, MdioConfig.SafeName, IdsFit, Text;
    DefineVerdict(m, p.handle, p.name, presence, row, ids);
    var h := p.handle - 1;
    forall i | 0 <= i < |m.devices| && i != h ensures !CacheModel.SameTarget(m.devices[i], Text("mdio"), p.name) {
      var d := m.devices[h];
      assert i < h ==> !CacheModel.SameTarget(m.devices[i], d.subsystem, d.name);
      assert h < i && m.devices[i].generation != 0 ==> !CacheModel.SameTarget(d, m.devices[i].subsystem, m.devices[i].name);
    }
  }

  // ----- Whole runs of callbacks

  /** What the service passes on: a device keeps its name, and its registers have names of their own. */
  ghost predicate Proposed(c: Callback, v: View) {
    && Apt(c, v)
    && (c.Redefined? ==> c.name == v.places[c.d].name && MdioConfig.SafeName(c.name) && IdsFit(c.ids))
  }

  ghost predicate AllProposed(cs: seq<Callback>, v: View)
    decreases |cs|
  {
    cs == [] || (Proposed(cs[0], v) && AllProposed(cs[1..], Believed(cs[0], v)))
  }

  function BelievedAll(cs: seq<Callback>, v: View): View
    requires AllProposed(cs, v)
    decreases |cs|
  {
    if cs == [] then v else BelievedAll(cs[1..], Believed(cs[0], v))
  }

  ghost predicate Mirror(m: CacheModel.Model, v: View) { CacheModel.WellFormed(m) && DisplaysAll(m, v.places, v.registry, v.presence) }

  /** A device attached to the registry joins those it shows; the first one joins none. */
  lemma AttachJoins(m: CacheModel.Model, v: View, name: Bytes, presence: nat, row: MdioService.Row, ids: seq<Bytes>)
    requires Mirror(m, v) && |ids| <= MdioConfig.REGISTERS
    ensures var r := CacheModel.Define(m, 0, Text("mdio"), name, presence, Catalog(row, ids));
      r.status == Ok ==>
        Mirror(r.model, View(v.places + [Place(r.handle, name, ids)], v.registry + [MdioService.Described(row, |ids|)], v.presence + [presence]))
  {
    hide CacheModel.Define, CacheModel.WellFormed, Displays, MdioService.Described, Text;
    Lengths(m, v);
    var r := CacheModel.Define(m, 0, Text("mdio"), name, presence, Catalog(row, ids));
    CacheModel.DefineKeepsWellFormed(m, 0, Text("mdio"), name, presence, Catalog(row, ids));
    DefineShows(m, 0, name, presence, row, ids);
    if r.status == Ok {
      FreshHandle(m, name, presence, Catalog(row, ids));
      forall i | 0 <= i < |v.places| ensures v.places[i].handle != r.handle && Displays(r.model, v.places[i], v.registry[i], v.presence[i]) {
        assert Displays(m, v.places[i], v.registry[i], v.presence[i]);
        StillDisplayed(m, r.model, v.places[i], v.registry[i], v.presence[i], r.handle);
      }
    }
  }

  lemma FreshHandle(m: CacheModel.Model, name: Bytes, presence: nat, entries: seq<CacheModel.Entry>)
    requires |m.devices| == CacheModel.DEVICES_MAX
    ensures var r := CacheModel.Define(m, 0, Text("mdio"), name, presence, entries);
      r.status == Ok ==> 1 <= r.handle <= CacheModel.DEVICES_MAX && m.devices[r.handle - 1].generation == 0
  {
    hide CacheModel.CatalogValid, CacheModel.Clash, CacheModel.NameValid, CacheModel.NormalizedAll, Text;
  }

  lemma StillDisplayed(m: CacheModel.Model, after: CacheModel.Model, p: Place, shown: seq<MdioService.Shown>, presence: nat, handle: nat)
    requires Displays(m, p, shown, presence) && 1 <= handle <= |m.devices| == |after.devices| && m.devices[handle - 1].generation == 0
    requires forall h :: 0 <= h < |m.devices| && h + 1 != handle ==> after.devices[h] == m.devices[h]
    ensures p.handle != handle && Displays(after, p, shown, presence)
  {
  }

  /** Every callback is answered Ok and leaves the registry showing what the service believes. */
  lemma CallbackSucceeds(m: CacheModel.Model, c: Callback, v: View)
    requires Mirror(m, v) && Proposed(c, v)
    ensures var (status, after) := Bridged(m, c, v); status == Ok && Mirror(after, Believed(c, v))
  {
    hide CacheModel.Define, CacheModel.Put, CacheModel.SetPresence, Displays, Believed, CacheModel.NormalDevice, CacheModel.NormalChange,
      MdioConfig.SafeName, IdsFit, Text, CacheModel.SameTarget;
    BeliefHolds(m, c, v);
    var p := v.places[c.d];
    match c {
      case Told(d, r, row, now) =>
        CacheModel.PutKeepsWellFormed(m, p.handle, r, row[r].value, if row[r].valid then 1 else 0, Origin(row[r].seeded), row[r].updatedMs, now);
      case Came(_, next, now) => CacheModel.SetPresenceKeepsWellFormed(m, p.handle, next, now);
      case Redefined(d, name, online, row, ids) =>
        RedefineSucceeds(m, p, v.registry[d], v.presence[d], Presence(online), row, ids);
        CacheModel.DefineKeepsWellFormed(m, p.handle, Text("mdio"), name, Presence(online), Catalog(row, ids));
    }
  }

  /** The registry after a run of callbacks, with every status they got. */
  ghost function BridgedAll(m: CacheModel.Model, cs: seq<Callback>, v: View): (CacheModel.Model, set<Status>)
    requires Mirror(m, v) && AllProposed(cs, v)
    decreases |cs|
  {
    if cs == [] then (m, {})
    else
      CallbackSucceeds(m, cs[0], v);
      var (status, after) := Bridged(m, cs[0], v);
      var (last, statuses) := BridgedAll(after, cs[1..], Believed(cs[0], v));
      (last, {status} + statuses)
  }

  lemma Lengths(m: CacheModel.Model, v: View)
    requires Mirror(m, v)
    ensures |m.devices| == CacheModel.DEVICES_MAX
  {
    hide CacheModel.NormalDevice, CacheModel.NormalChange, CacheModel.SameTarget, DisplaysAll;
  }

  /** Through any run of callbacks, changes of configuration included, the registry shows what the service believes. */
  lemma {:induction false} MirrorAlways(m: CacheModel.Model, cs: seq<Callback>, v: View)
    requires Mirror(m, v) && AllProposed(cs, v)
    ensures var (last, statuses) := BridgedAll(m, cs, v); statuses <= {Ok} && Mirror(last, BelievedAll(cs, v))
    decreases |cs|
  {
    hide CacheModel.WellFormed, DisplaysAll, Bridged, Believed, Apt, IdsFit, MdioConfig.SafeName;
    Lengths(m, v);
    if cs != [] {
      CallbackSucceeds(m, cs[0], v);
      MirrorAlways(Bridged(m, cs[0], v).1, cs[1..], Believed(cs[0], v));
    }
  }
}
