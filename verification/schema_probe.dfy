/**
 The version gate ahead of both readers: which schema a text declares, found without looking into its members.
 */
module SchemaProbe {
  import opened Words
  import opened Statuses
  import opened Tokens
  import opened JsonText
  import opened JsonDocs
  import opened ProfileModel
  import opened ProfileParser

  const U32_MAX := 0xFFFF_FFFF
  const MODERN := 2
  const LEGACY := 0

  function Schema(): Bytes { Text("schema_version") }

  /** Keys that only the newer format has. */
  predicate ModernKey(key: Bytes) {
    hide Text;
    key == Text("resources") || key == Text("transport") || key == Text("protocol") || key == Text("id")
  }

  function Verdict(declared: Option<nat>, modern: bool): R<nat> {
    if declared == None then (if modern then Fail(Malformed) else Good(LEGACY))
    else if declared.value != MODERN then Fail(Unsupported)
    else Good(MODERN)
  }

  /** One member seen: what is declared so far, unless it is declared twice or not as a number. */
  function Declared(key: Bytes, view: Bytes, declared: Option<nat>): R<Option<nat>> {
    if key != Schema() then Good(declared)
    else if declared.Some? || Counted(Some(view), U32_MAX) == None then Fail(Malformed)
    else Good(Counted(Some(view), U32_MAX))
  }

  /** A member: its key, its value, and what is left behind it. */
  function Met(b: Bytes): (r: Option<(Bytes, Bytes, Bytes)>)
    ensures r.Some? ==> |r.value.2| < |b|
  {
    hide Skip, Value, Str;
    match StrIn(b, KEY_MAX)
    case None => None
    case Some((key, behind)) =>
      var colon := Skip(behind);
      var v := if colon == [] then [] else Skip(colon[1..]);
      match Value(v, 1)
      case None => None
      case Some(rest) => Some((key, Ahead(v, rest), rest))
  }

  /** The next member, if a comma stands ahead of it. */
  function Onward(rest: Bytes): (b: Bytes)
    ensures |b| <= |rest|
  {
    var w := Skip(rest);
    if w != [] && w[0] == COMMA then Skip(w[1..]) else w
  }

  /** The members from here on, in an object that has been found well-formed. */
  function ProbeFrom(b: Bytes, declared: Option<nat>, modern: bool): R<nat>
    decreases |b|
  {
    hide Met, Onward, Declared, ModernKey;
    if b == [] || b[0] == RBRACE then Verdict(declared, modern)
    else
      match Met(b)
      case None => Fail(Malformed)
      case Some((key, view, rest)) =>
        var next :- Declared(key, view, declared);
        ProbeFrom(Onward(rest), next, modern || ModernKey(key))
  }

  function Probe(json: Bytes): R<nat> {
    var root :- Document(json);
    ProbeFrom(Skip(root[1..]), None, false)
  }

  // ----- What the newer reader accepts

  /** One turn of the gate. */
  lemma ProbeOn(b: Bytes, declared: Option<nat>, modern: bool)
    requires b != [] && b[0] != RBRACE
    ensures var m := Met(b);
      if m == None then ProbeFrom(b, declared, modern) == Fail(Malformed)
      else
        var (key, view, rest) := m.value;
        ProbeFrom(b, declared, modern) ==
        match Declared(key, view, declared)
        case Fail(status) => Fail(status)
        case Good(next) => ProbeFrom(Onward(rest), next, modern || ModernKey(key))
  {
    hide Met, Onward, Declared, ModernKey;
  }

  lemma ProbeStops(b: Bytes, declared: Option<nat>, modern: bool)
    requires b == [] || b[0] == RBRACE
    ensures ProbeFrom(b, declared, modern) == Verdict(declared, modern)
  {
    hide Met, Onward, Declared, ModernKey;
  }

  lemma DocumentStarts(json: Bytes)
    requires Document(json).Good?
    ensures Document(json).value != [] && Document(json).value[0] == LBRACE
  {
    hide Value, Skip;
  }

  lemma {:induction false} CountedWithin(view: Option<Bytes>, max: nat, more: nat)
    requires Counted(view, max).Some? && max <= more
    ensures view.Some? && Counted(view, more) == Counted(view, max)
  {
    hide Tallied;
    TalliedWithin(view.value, 0, max, more, 10);
  }

  lemma {:induction false} TalliedWithin(b: Bytes, n: nat, max: nat, more: nat, base: nat)
    requires n <= max <= more && base > 0 && Tallied(b, n, max, base).Some?
    ensures Tallied(b, n, more, base) == Tallied(b, n, max, base)
  {
    hide Tallied;
    TalliedStep(b, n, max, base);
    TalliedStep(b, n, more, base);
    if b != [] {
      var d := HexValue(b[0]);
      FloorFits(n, base, more - d) by { assert n * base + d <= max; }
      TalliedWithin(b[1..], n * base + d, max, more, base);
    }
  }

  lemma FieldsStep(b: Bytes, keys: seq<Bytes>, got: Views)
    requires |got| == |keys| && FieldsFrom(b, keys, got).Some?
    ensures b != [] && b[0] == QUOTE && StrIn(b, KEY_MAX).Some?
    ensures var (key, behind) := StrIn(b, KEY_MAX).value;
      var i, c := IndexOf(keys, key), Skip(behind);
      i < |keys| && got[i] == None && c != [] && Value(Skip(c[1..]), 1).Some?
    ensures var (key, behind) := StrIn(b, KEY_MAX).value;
      var v := Skip(Skip(behind)[1..]);
      var rest := Value(v, 1).value;
      var w, next := Skip(rest), got[IndexOf(keys, key) := Some(Ahead(v, rest))];
      && w != [] && |w| < |b|
      && (w[0] == RBRACE || w[0] == COMMA)
      && (w[0] == RBRACE ==> |w| == 1 && FieldsFrom(b, keys, got) == Some(next))
      && (w[0] == COMMA ==> FieldsFrom(b, keys, got) == FieldsFrom(Skip(w[1..]), keys, next))
  {
    hide Skip, Value, IndexOf, Chars;
  }

  lemma {:induction false} FieldsKept(b: Bytes, keys: seq<Bytes>, got: Views)
    requires |got| == |keys| && FieldsFrom(b, keys, got).Some?
    ensures forall i :: 0 <= i < |keys| && got[i].Some? ==> FieldsFrom(b, keys, got).value[i] == got[i]
    decreases |b|
  {
    hide FieldsFrom, Skip, Value, IndexOf, StrIn;
    FieldsStep(b, keys, got);
    var (key, behind) := StrIn(b, KEY_MAX).value;
    var v := Skip(Skip(behind)[1..]);
    var rest := Value(v, 1).value;
    var w := Skip(rest);
    if w[0] == COMMA {
      FieldsKept(Skip(w[1..]), keys, got[IndexOf(keys, key) := Some(Ahead(v, rest))]);
    }
  }

  lemma {:induction false} FieldsProbed(b: Bytes, keys: seq<Bytes>, got: Views, modern: bool)
    requires |got| == |keys| > 0 && keys[0] == Schema() && FieldsFrom(b, keys, got).Some?
    requires Counted(FieldsFrom(b, keys, got).value[0], MODERN) == Some(MODERN)
    ensures ProbeFrom(b, if got[0].Some? then Some(MODERN) else None, modern) == Good(MODERN)
    decreases |b|
  {
    hide FieldsFrom, Skip, Value, IndexOf, StrIn, Counted, ModernKey, Schema, ProbeFrom;
    FieldsStep(b, keys, got);
    var (key, behind) := StrIn(b, KEY_MAX).value;
    var v := Skip(Skip(behind)[1..]);
    var rest := Value(v, 1).value;
    var w, next := Skip(rest), got[IndexOf(keys, key) := Some(Ahead(v, rest))];
    var declared := if got[0].Some? then Some(MODERN) else None;
    ProbeOn(b, declared, modern);
    KeyIsFirst(keys, key);
    if w[0] == COMMA {
      FieldsKept(Skip(w[1..]), keys, next);
    }
    CountedWithin(FieldsFrom(b, keys, got).value[0], MODERN, U32_MAX);
    if w[0] == COMMA {
      FieldsProbed(Skip(w[1..]), keys, next, modern || ModernKey(key));
    } else {
      ProbeEnd(w, next, modern || ModernKey(key));
    }
  }

  lemma KeyIsFirst(keys: seq<Bytes>, key: Bytes)
    requires keys != []
    ensures IndexOf(keys, key) == 0 <==> key == keys[0]
  {
  }

  lemma ProbeEnd(w: Bytes, got: Views, modern: bool)
    requires |w| == 1 && w[0] == RBRACE && got != [] && got[0].Some?
    ensures ProbeFrom(w, Some(MODERN), modern) == Good(MODERN)
  {
    hide StrIn, Skip, Value, Declared, ModernKey;
  }

  /** Whatever the newer reader accepts is declared to be of its version. */
  lemma AcceptedIsModern(json: Bytes, mdio: bool)
    requires ParseProfile(json, mdio).Good?
    ensures Probe(json) == Good(MODERN)
  {
    hide Document, Fields, FieldsFrom, Skip, ParseProfile, Schema, Counted, ProbeFrom, RootKeys, Nothing;
    HeadCounted(json, mdio);
    DocumentStarts(json);
    FirstRootKey();
    var root, keys := Document(json).value, RootKeys();
    FieldsStart(root, keys);
    NothingCounted(keys);
    FieldsProbed(Skip(root[1..]), keys, Nothing(|keys|), false);
  }

  lemma HeadCounted(json: Bytes, mdio: bool)
    requires ParseProfile(json, mdio).Good?
    ensures Document(json).Good? && Fields(Document(json).value, RootKeys()).Some?
    ensures Counted(Fields(Document(json).value, RootKeys()).value[0], MODERN) == Some(MODERN)
  {
    hide Document, Fields, RootKeys, Counted, ParseDevice, ParseTransport, ParseProtocol, ParseOptions, ParseDefaults, ParseIds, ParseOrder,
      ParsePolicy, ParseRules, ParseSettings, ParseObservability, Validate, Spelled, IdValid, RegisterMapName, ViewName;
  }

  lemma FieldsStart(root: Bytes, keys: seq<Bytes>)
    requires root != [] && Fields(root, keys).Some?
    ensures Fields(root, keys) == Some(Nothing(|keys|)) || Fields(root, keys) == FieldsFrom(Skip(root[1..]), keys, Nothing(|keys|))
  {
    hide Skip, FieldsFrom, Nothing;
  }

  lemma NothingCounted(keys: seq<Bytes>)
    requires keys != []
    ensures Counted(Nothing(|keys|)[0], MODERN) == None && Nothing(|keys|)[0] == None
  {
  }

  lemma FirstRootKey()
    ensures RootKeys()[0] == Schema()
  {
    hide Text;
  }

  // ----- Printed objects

  lemma DocumentOf(d: Doc, rest: Bytes)
    requires d.Group? && d.braced && Neat(d) && Height(d) <= DEPTH_MAX && AllBlank(rest) && |Show(d) + rest| <= JSON_MAX
    ensures Document(Show(d) + rest) == Good(Show(d))
  {
    hide Show, Neat, Height, Value, Skip;
    ShowStarts(d);
    SkipNone(Show(d) + rest);
    ValueOf(d, 0, rest);
    AheadOf(Show(d), rest);
    SkipBlanks(rest, []);
    SkipNone([]);
    assert rest + [] == rest;
  }

  predicate Older(es: seq<Entry>) {
    forall i :: 0 <= i < |es| ==> |es[i].key| < KEY_MAX && es[i].key != Schema() && !ModernKey(es[i].key)
  }

  /** Members with none of the newer keys leave the gate undecided. */
  lemma {:induction false} OlderProbed(es: seq<Entry>, sep: Bytes, tail: Bytes)
    requires es != [] && NeatAll(es) && AllBlank(sep) && AllBlank(tail) && 1 + HeightAll(es) <= DEPTH_MAX && Older(es)
    ensures ProbeFrom(ShowEntry(true, es[0]) + ShowRest(true, es[1..], sep, tail), None, false) == Good(LEGACY)
    decreases es
  {
    hide Value, Skip, Show, ShowEntry, ShowRest, Str, Quoted, AllBlank, ProbeFrom, ModernKey, Schema;
    var e, others := es[0], es[1..];
    var more := ShowRest(true, others, sep, tail);
    var b := ShowEntry(true, e) + more;
    KeyOf(e, more);
    EntryStarts(true, e);
    ShowStarts(e.value);
    RestEnds(true, others, sep, tail, []);
    SkipRest(true, others, sep, tail, []);
    assert more + [] == more;
    ValueOf(e.value, 1, more);
    AheadOf(Show(e.value), more);
    ProbeOn(b, None, false);
    if others == [] {
      assert [Close(true)] + [] == [RBRACE];
      OlderEnd();
    } else {
      var following := ShowEntry(true, others[0]) + ShowRest(true, others[1..], sep, tail);
      assert ShowRest(true, others[1..], sep, tail) + [] == ShowRest(true, others[1..], sep, tail);
      assert ([COMMA] + (sep + following))[1..] == sep + following;
      OlderProbed(others, sep, tail);
    }
  }

  lemma OlderEnd()
    ensures ProbeFrom([RBRACE], None, false) == Good(LEGACY)
  {
    hide StrIn, Skip, Value, Declared, ModernKey;
  }

  lemma OlderText(d: Doc, rest: Bytes)
    requires d.Group? && d.braced && d.es != [] && Neat(d) && Height(d) <= DEPTH_MAX && AllBlank(rest) && |Show(d) + rest| <= JSON_MAX && Older(d.es)
    ensures Probe(Show(d) + rest) == Good(LEGACY)
  {
    hide Skip, ShowEntry, ShowRest, AllBlank, ProbeFrom, Document, Older, NeatAll, HeightAll;
    DocumentOf(d, rest);
    GroupInner(d, []);
    assert Show(d) + [] == Show(d);
    assert ShowRest(true, d.es[1..], d.sep, d.tail) + [] == ShowRest(true, d.es[1..], d.sep, d.tail);
    OlderProbed(d.es, d.sep, d.tail);
  }
}
