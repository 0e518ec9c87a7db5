/**
 Objects laid out over a list of known keys, and the members a reader with the same keys finds in them.
 */
module JsonTables {
  import opened Words
  import opened Tokens
  import opened JsonText
  import opened JsonDocs

  /** A member under the key with that number, unless it is left away. */
  datatype Slot = Slot(key: nat, there: bool, doc: Doc)

  predicate KeysFit(keys: seq<Bytes>) {
    && (forall i, j :: 0 <= i < j < |keys| ==> keys[i] != keys[j])
    && forall i :: 0 <= i < |keys| ==> Printed(keys[i]) && |keys[i]| < KEY_MAX
  }

  predicate Numbered(slots: seq<Slot>, n: nat) { forall i :: 0 <= i < |slots| ==> slots[i].key < n }

  predicate Apart(slots: seq<Slot>) { forall i, j :: 0 <= i < j < |slots| ==> slots[i].key != slots[j].key }

  predicate DocsFit(slots: seq<Slot>, h: nat) {
    forall i :: 0 <= i < |slots| && slots[i].there ==> Neat(slots[i].doc) && Height(slots[i].doc) <= h
  }

  function Rows(keys: seq<Bytes>, slots: seq<Slot>): (es: seq<Entry>)
    requires Numbered(slots, |keys|)
  {
    if slots == [] then [] else (if slots[0].there then [Entry(keys[slots[0].key], slots[0].doc)] else []) + Rows(keys, slots[1..])
  }

  /** An object on one line. */
  function Braces(keys: seq<Bytes>, slots: seq<Slot>): Doc
    requires Numbered(slots, |keys|)
  {
    Group(true, Rows(keys, slots), [], [BLANK], [])
  }

  /** A list on one line. */
  function Brackets(es: seq<Entry>): Doc { Group(false, es, [], [BLANK], []) }

  function Placed(got: Views, slots: seq<Slot>): (v: Views)
    requires Numbered(slots, |got|)
    ensures |v| == |got|
    decreases slots
  {
    if slots == [] then got
    else Placed(if slots[0].there then got[slots[0].key := Some(Show(slots[0].doc))] else got, slots[1..])
  }

  lemma {:induction false} IndexOfKey(keys: seq<Bytes>, i: nat)
    requires i < |keys| && forall k :: 0 <= k < i ==> keys[k] != keys[i]
    ensures IndexOf(keys, keys[i]) == i
  {
    if i > 0 {
      IndexOfKey(keys[1..], i - 1);
    }
  }

  lemma RowsStep(keys: seq<Bytes>, slots: seq<Slot>)
    requires slots != [] && Numbered(slots, |keys|)
    ensures !slots[0].there ==> Rows(keys, slots) == Rows(keys, slots[1..])
    ensures slots[0].there ==> Rows(keys, slots) == [Entry(keys[slots[0].key], slots[0].doc)] + Rows(keys, slots[1..])
    ensures slots[0].there ==> Rows(keys, slots)[0] == Entry(keys[slots[0].key], slots[0].doc) && Rows(keys, slots)[1..] == Rows(keys, slots[1..])
  {
  }

  lemma {:induction false} RowsNeat(keys: seq<Bytes>, slots: seq<Slot>, h: nat)
    requires KeysFit(keys) && Numbered(slots, |keys|) && DocsFit(slots, h)
    ensures NeatAll(Rows(keys, slots)) && HeightAll(Rows(keys, slots)) <= h
    decreases slots
  {
    hide Rows, Neat, Height, Printed;
    if slots == [] {
      NoRows(keys);
    } else {
      RowsStep(keys, slots);
      RowsNeat(keys, slots[1..], h);
    }
  }

  lemma NoRows(keys: seq<Bytes>)
    ensures Rows(keys, []) == []
  {
  }

  predicate Vacant(got: Views, slots: seq<Slot>) { forall i :: 0 <= i < |slots| && slots[i].key < |got| ==> got[slots[i].key] == None }

  lemma {:induction false} RowsFill(keys: seq<Bytes>, slots: seq<Slot>, got: Views)
    requires KeysFit(keys) && Numbered(slots, |keys|) && |got| == |keys| && Apart(slots) && Vacant(got, slots)
    ensures Fresh(got, keys, Rows(keys, slots)) && Filled(got, keys, Rows(keys, slots)) == Placed(got, slots)
    decreases slots
  {
    hide Rows, Show, Printed;
    if slots == [] {
      NoRows(keys);
    } else {
      RowsStep(keys, slots);
      var s := slots[0];
      if s.there {
        IndexOfKey(keys, s.key);
        RowsFill(keys, slots[1..], got[s.key := Some(Show(s.doc))]);
      } else {
        RowsFill(keys, slots[1..], got);
      }
    }
  }

  lemma {:induction false} PlacedAt(got: Views, slots: seq<Slot>)
    requires Numbered(slots, |got|) && Apart(slots)
    ensures forall i :: 0 <= i < |slots| ==>
              Placed(got, slots)[slots[i].key] == if slots[i].there then Some(Show(slots[i].doc)) else got[slots[i].key]
    ensures forall k :: 0 <= k < |got| && (forall i :: 0 <= i < |slots| ==> slots[i].key != k) ==> Placed(got, slots)[k] == got[k]
    decreases slots
  {
    hide Show;
    if slots != [] {
      var s := slots[0];
      var next := if s.there then got[s.key := Some(Show(s.doc))] else got;
      PlacedAt(next, slots[1..]);
      forall i | 0 <= i < |slots|
        ensures Placed(got, slots)[slots[i].key] == if slots[i].there then Some(Show(slots[i].doc)) else got[slots[i].key]
      {
        if i > 0 {
          assert slots[1..][i - 1] == slots[i];
        } else {
          assert forall k :: 0 <= k < |slots| - 1 ==> slots[1..][k] == slots[k + 1];
        }
      }
      forall k | 0 <= k < |got| && (forall i :: 0 <= i < |slots| ==> slots[i].key != k) ensures Placed(got, slots)[k] == got[k] {
        assert slots[0].key != k;
        assert forall i :: 0 <= i < |slots| - 1 ==> slots[1..][i] == slots[i + 1];
      }
    }
  }

  /** What the reader finds: the printed documents under their own numbers and nothing else. */
  predicate Holds(views: Views, slots: seq<Slot>) {
    && Numbered(slots, |views|)
    && (forall i :: 0 <= i < |slots| ==> views[slots[i].key] == if slots[i].there then Some(Show(slots[i].doc)) else None)
    && forall k :: 0 <= k < |views| && (forall i :: 0 <= i < |slots| ==> slots[i].key != k) ==> views[k] == None
  }

  /** The members of a printed table, taken back. */
  lemma FieldsOfRows(keys: seq<Bytes>, slots: seq<Slot>, h: nat, lead: Bytes, sep: Bytes, tail: Bytes)
    requires KeysFit(keys) && Numbered(slots, |keys|) && Apart(slots) && DocsFit(slots, h) && h < DEPTH_MAX
    requires AllBlank(lead) && AllBlank(sep) && AllBlank(tail)
    ensures var d := Group(true, Rows(keys, slots), lead, sep, tail);
      && Neat(d) && Height(d) <= 1 + h
      && Fields(Show(d), keys) == Some(Placed(Nothing(|keys|), slots)) && Holds(Placed(Nothing(|keys|), slots), slots)
  {
    hide Rows, Show, KeysFit, DocsFit, Fields, Placed, AllBlank;
    var d := Group(true, Rows(keys, slots), lead, sep, tail);
    RowsNeat(keys, slots, h);
    var none := Nothing(|keys|);
    RowsFill(keys, slots, none);
    FieldsOf(d, keys);
    PlacedAt(none, slots);
  }

  /** The same for an object on one line. */
  lemma FieldsOfBraces(keys: seq<Bytes>, slots: seq<Slot>, h: nat)
    requires KeysFit(keys) && Numbered(slots, |keys|) && Apart(slots) && DocsFit(slots, h) && h < DEPTH_MAX
    ensures var d := Braces(keys, slots);
      && Neat(d) && Height(d) <= 1 + h
      && Fields(Show(d), keys) == Some(Placed(Nothing(|keys|), slots)) && Holds(Placed(Nothing(|keys|), slots), slots)
  {
    hide Rows, Show, KeysFit, DocsFit, Fields, Placed, Neat, Height, Holds, Numbered, Apart;
    FieldsOfRows(keys, slots, h, [], [BLANK], []);
  }

  // ----- Lists

  /** Where the reader of a printed list stands behind its first `k` items. */
  function Behind(d: Doc, k: nat): Option<Bytes>
    requires d.Group? && k <= |d.es|
  {
    if k == 0 then None else Some(ShowRest(false, d.es[k..], d.sep, d.tail))
  }

  /** One step through a printed list yields its next item. */
  lemma StepOf(d: Doc, k: nat)
    requires d.Group? && !d.braced && Neat(d) && Height(d) <= DEPTH_MAX && k <= |d.es|
    ensures Following(Some(Show(d)), Behind(d, k)) ==
            if k == |d.es| then Stop else Item(Show(d.es[k].value), Behind(d, k + 1).value)
  {
    hide Next, Show, ShowRest, AllBlank, Height, NeatAll, HeightAll;
    if k == 0 {
      FirstOf(d);
    } else {
      NeatTail(d, k);
      NextOf(Show(d), d.es[k..], d.sep, d.tail);
      assert k < |d.es| ==> d.es[k..][1..] == d.es[k + 1..];
    }
  }

  lemma {:induction false} TailFits(es: seq<Entry>, k: nat, h: nat)
    requires NeatAll(es) && HeightAll(es) <= h && k <= |es|
    ensures NeatAll(es[k..]) && HeightAll(es[k..]) <= h
    decreases k
  {
    hide Neat, Height, Printed;
    if k == 0 {
      assert es[0..] == es;
    } else {
      TailFits(es[1..], k - 1, h);
      assert es[1..][k - 1..] == es[k..];
    }
  }

  lemma NeatTail(d: Doc, k: nat)
    requires d.Group? && Neat(d) && Height(d) <= DEPTH_MAX && k <= |d.es|
    ensures NeatAll(d.es[k..]) && 1 + HeightAll(d.es[k..]) <= DEPTH_MAX && AllBlank(d.sep) && AllBlank(d.tail)
  {
    hide NeatAll, HeightAll, AllBlank;
    TailFits(d.es, k, DEPTH_MAX - 1);
  }

  // ----- Tables with texts that are not UTF-8

  lemma {:induction false} RowsBare(keys: seq<Bytes>, slots: seq<Slot>, h: nat)
    requires KeysFit(keys) && Numbered(slots, |keys|)
    requires forall i :: 0 <= i < |slots| && slots[i].there ==> Bare(slots[i].doc) && Height(slots[i].doc) <= h
    ensures BareAll(Rows(keys, slots)) && HeightAll(Rows(keys, slots)) <= h
    decreases slots
  {
    hide Rows, Bare, Height, Printed;
    if slots == [] {
      NoRows(keys);
    } else {
      RowsStep(keys, slots);
      RowsBare(keys, slots[1..], h);
    }
  }

  lemma {:induction false} RowsNeatOnly(keys: seq<Bytes>, slots: seq<Slot>, k: nat)
    requires Numbered(slots, |keys|) && k < |slots| && slots[k].there && NeatAll(Rows(keys, slots))
    ensures Neat(slots[k].doc)
    decreases slots
  {
    hide Rows, Neat, Printed;
    RowsStep(keys, slots);
    if k > 0 {
      assert slots[0].there ==> NeatAll(Rows(keys, slots)[1..]);
      RowsNeatOnly(keys, slots[1..], k - 1);
    }
  }
}
