/**
 Registry, session, connection and client as one system: the steps each of them takes, and the
 ghost record of everything the devices have been.
 */
module CacheSystem {
  import opened Words
  import opened Statuses
  import opened CacheModel
  import opened CacheWire
  import opened CacheSession
  import opened CacheHistory
  import opened CacheClient

  /** What travels from server to client, in order. */
  datatype Message = Answer(status: u16, page: Option<Page>) | Notice(event: Event)

  datatype System = System(model: Model, history: History, session: Session, call: Option<Call>,
                           channel: seq<Message>, client: Client)
  {
    predicate Shaped() { |model.devices| == DEVICES_MAX && |session.subs| == SUBSCRIPTIONS }
  }

  function Initial(): System { System(Model(seq(DEVICES_MAX, _ => NO_DEVICE), 0, []), map[], START, None, [], FRESH) }

  datatype Action =
    | OnDefine(handle: u16, subsystem: Bytes, name: Bytes, presence: nat, described: seq<Entry>)
    | OnPut(handle: u16, index: nat, value: u64, valid: int, source: nat, updatedMs: u64, now: u64)
    | OnPresence(handle: u16, presence: nat, now: u64)
    | OnServe(now: u64, capacity: nat)
    | OnNotify(now: u64, capacity: nat)
    | OnBegin(subsystem: Bytes, name: Bytes, subscribe: bool)
    | OnUnsubscribe(id: u16)
    | OnReceive
    | OnTake

  /** A page or event as the client decodes it from the bytes the server encoded. */
  ghost function Arrived(p: Page): Option<Page> {
    if ShortIds(p.entries) then ParsePage(EncodePage(p)) else None
  }

  ghost function ArrivedEvent(e: Event): Option<Event> {
    if ShortIds(e.entries) then ParseEvent(EncodeEvent(e)) else None
  }

  /** The registry has room for one more definition and one more change. */
  predicate CountersLeft(m: Model) { m.generation < LAST_GENERATION && |m.log| < U64_LIMIT - 2 }

  ghost function StepDefine(y: System, handle: u16, subsystem: Bytes, name: Bytes, presence: nat,
                            described: seq<Entry>): System
    requires y.Shaped()
  {
    var r := Define(y.model, handle, subsystem, name, presence, described);
    y.(model := r.model, history := if r.status == Ok then Begun(y.history, r.model, r.handle) else y.history)
  }

  function StepChange(y: System, after: Model, handle: u16): System
    requires after.log != y.model.log ==> 1 <= handle <= |after.devices|
  {
    y.(model := after, history := if after.log != y.model.log then Extended(y.history, after, handle) else y.history)
  }

  function StepServe(y: System, now: u64, capacity: nat): System
    requires y.Shaped()
  {
    if y.call == None then y
    else
      var r := Request(y.model, y.session, y.call.value.opcode, y.call.value.body, now, capacity);
      y.(session := r.session, call := None, channel := y.channel + [Answer(r.status, r.page)])
  }

  function StepNotify(y: System, now: u64, capacity: nat): System
    requires y.Shaped()
  {
    var (s, e) := Emit(y.model, y.session, now, capacity);
    y.(session := s, channel := y.channel + if e.Some? then [Notice(e.value)] else [])
  }

  function StepBegin(y: System, subsystem: Bytes, name: Bytes, subscribe: bool): System {
    if y.client.health == Running && y.client.rpc == Idle && NameValid(subsystem) && NameValid(name) then
      y.(client := y.client.(rpc := Paging(subsystem, name, subscribe, None, map[], 0)),
         call := Some(StartCall(subsystem, name, subscribe)))
    else y
  }

  function StepUnsubscribe(y: System, id: u16): System {
    if y.client.health == Running && y.client.rpc == Idle then
      y.(client := y.client.(rpc := Dropping(id)), call := Some(DropCall(id)))
    else y
  }

  /** An event that arrives ahead of an answer is kept for later. */
  ghost function Kept(c: Client, e: Event): Client {
    if |c.queue| >= QUEUE_LIMIT then c.(health := Overflowed)
    else
      match ArrivedEvent(e)
      case None => c.(health := Rejected)
      case Some(f) => c.(queue := c.queue + [f])
  }

  /** An answer ends the request, or carries it on to the next page. */
  ghost function Resumed(c: Client, status: u16, page: Option<Page>): (Client, Option<Call>) {
    if status != OK then (c.(rpc := Idle), None)
    else
      match c.rpc
      case Idle => (c.(health := Rejected), None)
      case Dropping(id) =>
        if page.Some? then (c.(health := Rejected), None)
        else (c.(queue := Without(c.queue, id), rpc := Idle), None)
      case Paging(subsystem, name, _, _, _, _) =>
        if page == None || Arrived(page.value) == None || |subsystem| >= 0x100 || |name| >= 0x100 then
          (c.(health := Rejected), None)
        else OnPage(c, Arrived(page.value).value)
  }

  /** The client reads one frame while it waits for an answer. */
  ghost function StepReceive(y: System): System {
    var c := y.client;
    if c.health != Running || c.rpc == Idle || y.channel == [] then y
    else
      var z := y.(channel := y.channel[1..]);
      match y.channel[0]
      case Notice(e) => z.(client := Kept(c, e))
      case Answer(status, page) =>
        var (d, call) := Resumed(c, status, page);
        z.(client := d, call := call)
  }

  /** An event is applied to the replica it names; nobody else has asked for it. */
  function Applied(c: Client, e: Event): Client {
    if e.sub in c.replicas then c.(replicas := c.replicas[e.sub := ApplyEvent(c.replicas[e.sub], e)]) else c
  }

  /** The idle client takes its next event, queued or fresh. */
  ghost function StepTake(y: System): System {
    var c := y.client;
    if c.health != Running || c.rpc != Idle then y
    else if c.queue != [] then y.(client := Applied(c.(queue := c.queue[1..]), c.queue[0]))
    else if y.channel == [] then y
    else
      var z := y.(channel := y.channel[1..]);
      match y.channel[0]
      case Answer(_, _) => z.(client := c.(health := Rejected))
      case Notice(e) =>
        match ArrivedEvent(e)
        case None => z.(client := c.(health := Rejected))
        case Some(f) => z.(client := Applied(c, f))
  }

  ghost function Step(y: System, a: Action): (z: System)
    requires y.Shaped()
  {
    match a
    case OnDefine(handle, subsystem, name, presence, described) =>
      if CountersLeft(y.model) then StepDefine(y, handle, subsystem, name, presence, described) else y
    case OnPut(handle, index, value, valid, source, updatedMs, now) =>
      if CountersLeft(y.model) then
        StepChange(y, Put(y.model, handle, index, value, valid, source, updatedMs, now).1, handle) else y
    case OnPresence(handle, presence, now) =>
      if CountersLeft(y.model) then StepChange(y, SetPresence(y.model, handle, presence, now).1, handle) else y
    case OnServe(now, capacity) => StepServe(y, now, capacity)
    case OnNotify(now, capacity) => StepNotify(y, now, capacity)
    case OnBegin(subsystem, name, subscribe) => StepBegin(y, subsystem, name, subscribe)
    case OnUnsubscribe(id) => StepUnsubscribe(y, id)
    case OnReceive => StepReceive(y)
    case OnTake => StepTake(y)
  }
}

