/**
 The bodies of CACHE pages and events: what the firmware writes and what a client accepts.
 */
module CacheWire {
  import opened Words
  import opened CacheModel

  const VERSION: u8 := 1
  const SNAPSHOT_KIND: u8 := 0
  const RESYNC_KIND: u8 := 3
  const PAGE_HEADER := 37
  const EVENT_HEADER := 28
  const ENTRY_TAIL := 19
  const PAGE_LAYOUT: seq<nat> := [1, 1, 2, 4, 4, 8, 8, 2, 2, 2, 2, 1]
  const EVENT_LAYOUT: seq<nat> := [1, 1, 2, 4, 8, 8, 1, 1, 2]
  const ENTRY_LAYOUT: seq<nat> := [1, 1, 1, 8, 8]
  const LAST_PAGE: u16 := 0xFFFF

  datatype Page = Page(sub: nat, token: nat, generation: nat, revision: nat, captured: nat,
                       total: nat, first: nat, presence: nat, entries: seq<Entry>)
  {
    function Next(): nat {
      if first + |entries| == total then LAST_PAGE else first + |entries|
    }

    function Fields(): (fields: seq<nat>)
      ensures |fields| == |PAGE_LAYOUT|
    {
      [VERSION, SNAPSHOT_KIND, sub, token, generation, revision, captured, total, first, |entries|, Next(), presence]
    }
  }

  datatype Event = Event(kind: nat, sub: nat, generation: nat, revision: nat, time: nat,
                         presence: nat, reason: nat, entries: seq<Entry>)
  {
    function Fields(): (fields: seq<nat>)
      ensures |fields| == |EVENT_LAYOUT|
    {
      [VERSION, kind, sub, generation, revision, time, presence, reason, |entries|]
    }
  }

  function EntrySize(e: Entry): nat { |e.id| + 20 }

  function EncodeEntry(e: Entry): (b: Bytes)
    requires |e.id| < 0x100
    ensures |b| == EntrySize(e)
  {
    [|e.id|] + (e.id + EntryFields(e))
  }

  function EntryFields(e: Entry): (b: Bytes)
    ensures |b| == ENTRY_TAIL
  {
    SizeOfEntry();
    Pack(ENTRY_LAYOUT, [e.widthBits, e.valid, e.source, e.value, e.updatedMs])
  }

  lemma SizeOfEntry()
    ensures Size(ENTRY_LAYOUT) == ENTRY_TAIL
  {
  }

  lemma Sizes()
    ensures Size(ENTRY_LAYOUT) == ENTRY_TAIL && Size(PAGE_LAYOUT) == PAGE_HEADER && Size(EVENT_LAYOUT) == EVENT_HEADER
  {
    assert Size(PAGE_LAYOUT[11..]) == 1;
    assert Size(PAGE_LAYOUT[10..]) == 3;
    assert Size(PAGE_LAYOUT[9..]) == 5;
  }

  ghost predicate ShortIds(entries: seq<Entry>) {
    forall i :: 0 <= i < |entries| ==> |entries[i].id| < 0x100
  }

  function EncodeEntries(entries: seq<Entry>): Bytes
    requires ShortIds(entries)
  {
    if entries == [] then []
    else EncodeEntry(entries[0]) + EncodeEntries(entries[1..])
  }

  function EncodePage(p: Page): Bytes
    requires ShortIds(p.entries)
  {
    Pack(PAGE_LAYOUT, p.Fields()) + EncodeEntries(p.entries)
  }

  function EncodeEvent(e: Event): Bytes
    requires ShortIds(e.entries)
  {
    Pack(EVENT_LAYOUT, e.Fields()) + EncodeEntries(e.entries)
  }

  // ----- The client's decoders

  ghost predicate NormalResources(entries: seq<Entry>) {
    (forall i :: 0 <= i < |entries| ==> NormalEntry(entries[i])) && DistinctIds(entries)
  }

  ghost predicate NormalPage(p: Page) {
    && p.token != 0 && p.generation != 0 && p.presence <= PRESENCE_UNAVAILABLE
    && Held(PAGE_LAYOUT, p.Fields())
    && p.first + |p.entries| <= p.total
    && (|p.entries| == 0 ==> p.first == p.total)
    && NormalResources(p.entries)
  }

  ghost predicate NormalEvent(e: Event) {
    && e.kind in {CHANGE, PRESENCE, RESYNC_KIND}
    && e.sub != 0 && e.generation != 0 && e.presence <= PRESENCE_UNAVAILABLE
    && Held(EVENT_LAYOUT, e.Fields())
    && |e.entries| == (if e.kind == CHANGE then 1 else 0)
    && (if e.kind == RESYNC_KIND then e.reason in {LOST, RECONFIGURED, EXPIRED} else e.reason == 0)
    && NormalResources(e.entries)
  }

  function ParseFields(id: Bytes, t: Bytes): Entry
    requires |t| >= ENTRY_TAIL
  {
    Sizes();
    Limits();
    var v := Unpack(ENTRY_LAYOUT, t);
    Entry(id, v[3], v[4], v[0], v[1], v[2])
  }

  predicate AcceptedFields(e: Entry) {
    && NameValid(e.id) && 1 <= e.widthBits <= 64 && e.valid <= 1 && e.source <= SOURCE_DEVICE
    && Fits(e.value, e.widthBits)
    && (e.valid == 0 ==> e.value == 0 && e.source == 0 && e.updatedMs == 0)
  }

  /** One resource at the head of `b`, with the bytes after it. */
  function ParseEntry(b: Bytes): (r: Option<(Entry, Bytes)>)
    ensures r.Some? ==> AcceptedFields(r.value.0) && |r.value.1| < |b|
  {
    if |b| == 0 || !(1 <= b[0] <= 31) || |b| < b[0] + 20 then None
    else
      var n, u := b[0] as nat, b[1..];
      var id, t := u[..n], u[n..];
      var e := ParseFields(id, t);
      if AcceptedFields(e) then Some((e, t[ENTRY_TAIL..])) else None
  }

  function ParseEntries(b: Bytes, count: nat): (r: Option<seq<Entry>>)
    ensures r.Some? ==> |r.value| == count && forall i :: 0 <= i < count ==> AcceptedFields(r.value[i])
  {
    if count == 0 then (if b == [] then Some([]) else None)
    else
      match ParseEntry(b)
      case None => None
      case Some((e, rest)) =>
        match ParseEntries(rest, count - 1)
        case None => None
        case Some(es) => Some([e] + es)
  }

  ghost function ParsePage(b: Bytes): Option<Page> {
    Sizes();
    if |b| < PAGE_HEADER then None
    else
      var v := Unpack(PAGE_LAYOUT, b);
      match ParseEntries(b[PAGE_HEADER..], v[9])
      case None => None
      case Some(es) =>
        var p := Page(v[2], v[3], v[4], v[5], v[6], v[7], v[8], v[11], es);
        if v[0] == VERSION && v[1] == SNAPSHOT_KIND && p.token != 0 && p.generation != 0 &&
           p.presence <= PRESENCE_UNAVAILABLE && p.first + v[9] <= p.total &&
           (v[9] == 0 ==> p.first == p.total) && v[10] == p.Next() && DistinctIds(es) then Some(p)
        else None
  }

  ghost function ParseEvent(b: Bytes): Option<Event> {
    Sizes();
    if |b| < EVENT_HEADER then None
    else
      var v := Unpack(EVENT_LAYOUT, b);
      match ParseEntries(b[EVENT_HEADER..], v[8])
      case None => None
      case Some(es) =>
        var e := Event(v[1], v[2], v[3], v[4], v[5], v[6], v[7], es);
        if v[0] == VERSION && e.kind in {CHANGE, PRESENCE, RESYNC_KIND} && e.sub != 0 && e.generation != 0 &&
           e.presence <= PRESENCE_UNAVAILABLE && v[8] == (if e.kind == CHANGE then 1 else 0) &&
           (if e.kind == RESYNC_KIND then e.reason in {LOST, RECONFIGURED, EXPIRED} else e.reason == 0) &&
           DistinctIds(es) then Some(e)
        else None
  }

  /** A client's acceptance test is the registry's normal form. */
  lemma AcceptedIsNormal(e: Entry)
    ensures AcceptedFields(e) <==> NormalEntry(e)
  {
    if e.widthBits == 64 { Pow2Of64(); }
  }

  lemma ParseEntryOfEncoding(e: Entry, rest: Bytes)
    requires AcceptedFields(e)
    ensures ParseEntry(EncodeEntry(e) + rest) == Some((e, rest))
  {
    var b := EncodeEntry(e) + rest;
    var n, u := b[0] as nat, b[1..];
    assert u == e.id + (EntryFields(e) + rest);
    var t := u[n..];
    assert u[..n] == e.id && t == EntryFields(e) + rest && t[ENTRY_TAIL..] == rest;
    ParseFieldsOfEncoding(e, rest);
  }

  lemma ParseFieldsOfEncoding(e: Entry, rest: Bytes)
    ensures ParseFields(e.id, EntryFields(e) + rest) == e
  {
    Limits();
    UnpackOfPack(ENTRY_LAYOUT, [e.widthBits, e.valid, e.source, e.value, e.updatedMs], rest);
  }

  lemma EncodingOfParseFields(id: Bytes, t: Bytes)
    requires |t| >= ENTRY_TAIL
    ensures t == EntryFields(ParseFields(id, t)) + t[ENTRY_TAIL..]
  {
    Sizes();
    hide Unpack, Pack, Size, Limit;
    var v, e := Unpack(ENTRY_LAYOUT, t), ParseFields(id, t);
    assert v == [e.widthBits, e.valid, e.source, e.value, e.updatedMs];
    PackOfUnpack(ENTRY_LAYOUT, t);
  }

  lemma ParseEntrySound(b: Bytes)
    requires ParseEntry(b).Some?
    ensures var (e, rest) := ParseEntry(b).value; b == EncodeEntry(e) + rest
  {
    var n, u := b[0] as nat, b[1..];
    EncodingOfParseFields(u[..n], u[n..]);
    assert b == [b[0]] + (u[..n] + u[n..]);
  }

  /** The resource decoder accepts exactly the encodings of normal resources. */
  lemma {:induction false} ParseEntriesExact(b: Bytes, count: nat, es: seq<Entry>)
    ensures ParseEntries(b, count) == Some(es) <==>
            |es| == count && (forall i :: 0 <= i < |es| ==> AcceptedFields(es[i])) && b == EncodeEntries(es)
  {
    if count > 0 && es != [] {
      if ParseEntries(b, count) == Some(es) {
        ParseEntriesSound(b, count, es);
      }
      if |es| == count && (forall i :: 0 <= i < |es| ==> AcceptedFields(es[i])) && b == EncodeEntries(es) {
        ParseEntriesComplete(es);
      }
    }
  }

  lemma {:induction false} ParseEntriesSound(b: Bytes, count: nat, es: seq<Entry>)
    requires ParseEntries(b, count) == Some(es)
    ensures b == EncodeEntries(es)
  {
    if count > 0 {
      var (e, rest) := ParseEntry(b).value;
      ParseEntrySound(b);
      ParseEntriesSound(rest, count - 1, es[1..]);
    }
  }

  lemma {:induction false} ParseEntriesComplete(es: seq<Entry>)
    requires ShortIds(es) && forall i :: 0 <= i < |es| ==> AcceptedFields(es[i])
    ensures ParseEntries(EncodeEntries(es), |es|) == Some(es)
  {
    if es != [] {
      ParseEntryOfEncoding(es[0], EncodeEntries(es[1..]));
      ParseEntriesComplete(es[1..]);
      assert es == [es[0]] + es[1..];
    }
  }

  /** The page decoder accepts exactly the encodings of normal pages, and recovers the page. */
  lemma ParsePageExact(b: Bytes, p: Page)
    ensures ParsePage(b) == Some(p) <==> NormalPage(p) && b == EncodePage(p)
  {
    if ParsePage(b) == Some(p) { ParsePageSound(b, p); }
    if NormalPage(p) && b == EncodePage(p) { ParsePageComplete(p); }
  }

  lemma ParsePageSound(b: Bytes, p: Page)
    requires ParsePage(b) == Some(p)
    ensures NormalPage(p) && b == EncodePage(p)
  {
    hide Unpack, Pack, Size, Limit, ParseEntries, EncodeEntries;
    Sizes();
    forall i | 0 <= i < |p.entries| { AcceptedIsNormal(p.entries[i]); }
    var v := Unpack(PAGE_LAYOUT, b);
    assert v == p.Fields();
    PackOfUnpack(PAGE_LAYOUT, b);
    ParseEntriesExact(b[PAGE_HEADER..], |p.entries|, p.entries);
  }

  lemma ParsePageComplete(p: Page)
    requires NormalPage(p)
    ensures ParsePage(EncodePage(p)) == Some(p)
  {
    hide Unpack, Pack, Size, Limit, ParseEntries, EncodeEntries;
    Sizes();
    forall i | 0 <= i < |p.entries| { AcceptedIsNormal(p.entries[i]); }
    var b := EncodePage(p);
    UnpackOfPack(PAGE_LAYOUT, p.Fields(), EncodeEntries(p.entries));
    assert b[PAGE_HEADER..] == EncodeEntries(p.entries);
    ParseEntriesExact(b[PAGE_HEADER..], |p.entries|, p.entries);
  }

  /** The event decoder accepts exactly the encodings of normal events, and recovers the event. */
  lemma ParseEventExact(b: Bytes, e: Event)
    ensures ParseEvent(b) == Some(e) <==> NormalEvent(e) && b == EncodeEvent(e)
  {
    hide Unpack, Pack, Size, Limit, ParseEntries, EncodeEntries;
    Sizes();
    forall i | 0 <= i < |e.entries| { AcceptedIsNormal(e.entries[i]); }
    if ParseEvent(b) == Some(e) {
      var v := Unpack(EVENT_LAYOUT, b);
      assert v == e.Fields();
      PackOfUnpack(EVENT_LAYOUT, b);
      ParseEntriesExact(b[EVENT_HEADER..], |e.entries|, e.entries);
    }
    if NormalEvent(e) && b == EncodeEvent(e) {
      UnpackOfPack(EVENT_LAYOUT, e.Fields(), EncodeEntries(e.entries));
      assert b[EVENT_HEADER..] == EncodeEntries(e.entries);
      ParseEntriesExact(b[EVENT_HEADER..], |e.entries|, e.entries);
    }
  }
}
