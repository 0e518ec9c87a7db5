/**
 A bounded buffer into which a document is printed member by member, and how what has been printed so far grows into
 the whole document.
 */
module JsonWriter {
  import opened Words
  import opened Tokens
  import opened JsonText
  import opened JsonDocs
  import opened JsonTables

  // ----- A group on the way

  /** Entries behind the first one. */
  function Joined(braced: bool, es: seq<Entry>, sep: Bytes): Bytes {
    if es == [] then [] else [COMMA] + (sep + (ShowEntry(braced, es[0]) + Joined(braced, es[1..], sep)))
  }

  /** A group with these entries so far, not closed. */
  function Started(braced: bool, es: seq<Entry>, lead: Bytes, sep: Bytes): Bytes {
    [Open(braced)] + if es == [] then [] else lead + (ShowEntry(braced, es[0]) + Joined(braced, es[1..], sep))
  }

  lemma {:induction false} JoinedAppend(braced: bool, es: seq<Entry>, e: Entry, sep: Bytes)
    ensures Joined(braced, es + [e], sep) == Joined(braced, es, sep) + ([COMMA] + (sep + ShowEntry(braced, e)))
  {
    hide ShowEntry;
    if es == [] {
      assert [] + [e] == [e] && Joined(braced, [e][1..], sep) == [];
    } else {
      assert (es + [e])[1..] == es[1..] + [e];
      JoinedAppend(braced, es[1..], e, sep);
    }
  }

  lemma {:induction false} JoinedRest(braced: bool, es: seq<Entry>, sep: Bytes, tail: Bytes)
    ensures ShowRest(braced, es, sep, tail) == Joined(braced, es, sep) + (tail + [Close(braced)])
  {
    hide ShowEntry;
    if es != [] {
      JoinedRest(braced, es[1..], sep, tail);
    }
  }

  /** What stands ahead of an entry. */
  function Between(first: bool, lead: Bytes, sep: Bytes): Bytes { if first then lead else [COMMA] + sep }

  lemma StartedAppend(braced: bool, es: seq<Entry>, e: Entry, lead: Bytes, sep: Bytes)
    ensures Started(braced, es + [e], lead, sep) == Started(braced, es, lead, sep) + (Between(es == [], lead, sep) + ShowEntry(braced, e))
  {
    hide ShowEntry, Joined;
    if es == [] {
      assert [] + [e] == [e] && Joined(braced, [e][1..], sep) == [] by { JoinedNone(braced, sep); }
    } else {
      assert (es + [e])[1..] == es[1..] + [e];
      JoinedAppend(braced, es[1..], e, sep);
    }
  }

  lemma JoinedNone(braced: bool, sep: Bytes)
    ensures Joined(braced, [], sep) == []
  {
  }

  lemma StartedWhole(braced: bool, es: seq<Entry>, lead: Bytes, sep: Bytes, tail: Bytes)
    ensures Show(Group(braced, es, lead, sep, tail)) == Started(braced, es, lead, sep) + ((if es == [] then [] else tail) + [Close(braced)])
  {
    hide ShowEntry, Joined, ShowRest;
    if es != [] {
      JoinedRest(braced, es[1..], sep, tail);
    }
  }

  /** What stands between the entries of a group, ahead of the first and behind the last one. */
  datatype Layout = Layout(lead: Bytes, sep: Bytes, tail: Bytes)

  // ----- The buffer

  class Writer {
    const cap: nat
    var out: Bytes
    var failed: bool
    /** Everything that was to be printed, and whether a text among it could not be. */
    ghost var meant: Bytes
    ghost var mute: bool

    ghost predicate Valid()
      reads this
    {
      && (!failed ==> out == meant && |out| < cap && !mute)
      && (failed ==> |meant| >= cap || mute)
    }

    constructor (cap: nat)
      requires cap > 0
      ensures Valid() && meant == [] && !mute && this.cap == cap
    {
      this.cap, out, failed, meant, mute := cap, [], false, [], false;
    }

    /** A piece is added whole or not at all, and room is kept for the terminator. */
    method Append(piece: Bytes)
      requires Valid()
      modifies this
      ensures Valid() && meant == old(meant) + piece && mute == old(mute)
    {
      if failed || |piece| >= cap - |out| {
        failed := true;
      } else {
        out := out + piece;
      }
      meant := meant + piece;
    }

    /** A quoted text; control characters and deletes make the whole printing fail. */
    method Quote(s: Bytes)
      requires Valid()
      modifies this
      ensures Valid() && meant == old(meant) + Quoted(s) && mute == (old(mute) || !Showable(s))
    {
      hide QuotedChars;
      Append([QUOTE]);
      var i := 0;
      QuotedFrom(s, 0);
      while i < |s|
        invariant 0 <= i <= |s| && Valid() && mute == old(mute) && forall k :: 0 <= k < i ==> s[k] >= 32 && s[k] != 127
        invariant meant + QuotedChars(s[i..]) == old(meant) + ([QUOTE] + QuotedChars(s))
      {
        if s[i] < 32 || s[i] == 127 {
          failed, mute := true, true;
          meant := old(meant) + Quoted(s);
          return;
        }
        QuotedFrom(s, i);
        ghost var before := meant;
        Append(if s[i] == QUOTE || s[i] == ESCAPE then [ESCAPE, s[i]] else [s[i]]);
        assert meant + QuotedChars(s[i + 1..]) == before + QuotedChars(s[i..]);
        i := i + 1;
      }
      QuotedFrom(s, |s|);
      assert meant + [] == meant;
      Append([QUOTE]);
    }

    // ----- Groups

    /** A group stands open with these entries behind `before`. */
    ghost predicate At(before: Bytes, braced: bool, es: seq<Entry>, lay: Layout)
      reads this
    {
      meant == before + Started(braced, es, lay.lead, lay.sep)
    }

    method Start(braced: bool, ghost lay: Layout)
      requires Valid()
      modifies this
      ensures Valid() && mute == old(mute) && At(old(meant), braced, [], lay)
    {
      Append([Open(braced)]);
    }

    /** What stands ahead of a value: the separator, and the key of a member. */
    method Lead(braced: bool, first: bool, key: Bytes, lay: Layout)
      requires Valid()
      modifies this
      ensures Valid() && mute == old(mute) && meant == old(meant) + (Between(first, lay.lead, lay.sep) + ShowKey(braced, key))
    {
      hide QuotedChars;
      Append(Between(first, lay.lead, lay.sep));
      if braced {
        Append(Quoted(key) + [COLON, BLANK]);
      }
    }

    /** The entry that has just been printed counts as one of the group's. */
    ghost method Count(braced: bool, e: Entry, lay: Layout, before: Bytes, es: seq<Entry>, from: Bytes)
      requires from == before + Started(braced, es, lay.lead, lay.sep)
      requires meant == from + (Between(es == [], lay.lead, lay.sep) + ShowKey(braced, e.key)) + Show(e.value)
      ensures At(before, braced, es + [e], lay)
    {
      hide Started, Show, Quoted;
      StartedAppend(braced, es, e, lay.lead, lay.sep);
    }

    /** The end of a group. */
    method Finish(braced: bool, empty: bool, lay: Layout, ghost before: Bytes, ghost es: seq<Entry>)
      requires Valid() && At(before, braced, es, lay) && empty == (es == [])
      modifies this
      ensures Valid() && mute == old(mute) && meant == before + Show(Group(braced, es, lay.lead, lay.sep, lay.tail))
    {
      hide Started, Show;
      StartedWhole(braced, es, lay.lead, lay.sep, lay.tail);
      Append((if empty then [] else lay.tail) + [Close(braced)]);
    }

    // ----- Members of an object over known keys

    /** An object stands open with the members in these slots, the first of which is always there. */
    ghost predicate Building(before: Bytes, keys: seq<Bytes>, slots: seq<Slot>, lay: Layout)
      reads this
    {
      && Numbered(slots, |keys|) && (slots != [] ==> slots[0].there)
      && At(before, true, Rows(keys, slots), lay)
    }

    /** A text as the value of the next member, unless the member is left away. */
    method WordSlot(keys: seq<Bytes>, k: nat, there: bool, s: Bytes, first: bool, lay: Layout, ghost before: Bytes, ghost slots: seq<Slot>)
      requires Valid() && k < |keys| && Building(before, keys, slots, lay) && first == (slots == []) && (first ==> there)
      modifies this
      ensures Valid() && mute == (old(mute) || (there && !Showable(s)))
      ensures Building(before, keys, slots + [Slot(k, there, Word(s))], lay)
    {
      hide Rows, Started, Quoted, Showable, QuotedChars;
      SlotsAppend(keys, slots, Slot(k, there, Word(s)));
      if there {
        Lead(true, first, keys[k], lay);
        Quote(s);
        Count(true, Entry(keys[k], Word(s)), lay, before, Rows(keys, slots), old(meant));
      }
    }

    /** A number or a flag as the value of the next member, unless the member is left away. */
    method PlainSlot(keys: seq<Bytes>, k: nat, there: bool, d: Doc, first: bool, lay: Layout, ghost before: Bytes, ghost slots: seq<Slot>)
      requires Valid() && k < |keys| && Building(before, keys, slots, lay) && first == (slots == []) && (first ==> there)
      requires d.Number? || d.Flag?
      modifies this
      ensures Valid() && mute == old(mute) && Building(before, keys, slots + [Slot(k, there, d)], lay)
    {
      hide Rows, Started, Quoted, Show;
      SlotsAppend(keys, slots, Slot(k, there, d));
      if there {
        Lead(true, first, keys[k], lay);
        Append(Show(d));
        Count(true, Entry(keys[k], d), lay, before, Rows(keys, slots), old(meant));
      }
    }

    /** The value of the next member has just been printed behind its key. */
    ghost method CountSlot(keys: seq<Bytes>, k: nat, d: Doc, lay: Layout, before: Bytes, slots: seq<Slot>, from: Bytes)
      requires Numbered(slots, |keys|) && (slots != [] ==> slots[0].there) && k < |keys|
      requires from == before + Started(true, Rows(keys, slots), lay.lead, lay.sep)
      requires meant == from + (Between(slots == [], lay.lead, lay.sep) + ShowKey(true, keys[k])) + Show(d)
      ensures Building(before, keys, slots + [Slot(k, true, d)], lay)
    {
      hide Rows, Started, Quoted, Show;
      SlotsAppend(keys, slots, Slot(k, true, d));
      Count(true, Entry(keys[k], d), lay, before, Rows(keys, slots), from);
    }

    /** The end of an object. */
    method Seal(keys: seq<Bytes>, lay: Layout, ghost before: Bytes, ghost slots: seq<Slot>)
      requires Valid() && Building(before, keys, slots, lay) && slots != []
      modifies this
      ensures Valid() && mute == old(mute) && meant == before + Show(Group(true, Rows(keys, slots), lay.lead, lay.sep, lay.tail))
    {
      hide Rows, Started, Show;
      SlotsThere(keys, slots);
      Finish(true, false, lay, before, Rows(keys, slots));
    }
  }

  lemma SlotsThere(keys: seq<Bytes>, slots: seq<Slot>)
    requires Numbered(slots, |keys|)
    ensures slots == [] ==> Rows(keys, slots) == []
    ensures slots != [] && slots[0].there ==> Rows(keys, slots) != []
  {
  }

  lemma {:induction false} RowsAppend(keys: seq<Bytes>, slots: seq<Slot>, s: Slot)
    requires Numbered(slots, |keys|) && s.key < |keys|
    ensures Numbered(slots + [s], |keys|)
    ensures Rows(keys, slots + [s]) == Rows(keys, slots) + if s.there then [Entry(keys[s.key], s.doc)] else []
    decreases slots
  {
    hide Rows;
    RowsUnfold(keys, slots + [s]);
    if slots == [] {
      assert ([] + [s])[1..] == [];
      NoRows(keys);
    } else {
      RowsUnfold(keys, slots);
      assert (slots + [s])[1..] == slots[1..] + [s];
      RowsAppend(keys, slots[1..], s);
    }
  }

  lemma RowsUnfold(keys: seq<Bytes>, slots: seq<Slot>)
    requires slots != [] && Numbered(slots, |keys|)
    ensures Rows(keys, slots) == (if slots[0].there then [Entry(keys[slots[0].key], slots[0].doc)] else []) + Rows(keys, slots[1..])
  {
  }

  lemma SlotsAppend(keys: seq<Bytes>, slots: seq<Slot>, s: Slot)
    requires Numbered(slots, |keys|) && s.key < |keys| && (slots != [] ==> slots[0].there)
    ensures Numbered(slots + [s], |keys|)
    ensures Rows(keys, slots + [s]) == if s.there then Rows(keys, slots) + [Entry(keys[s.key], s.doc)] else Rows(keys, slots)
    ensures (Rows(keys, slots) == []) == (slots == [])
  {
    hide Rows;
    RowsAppend(keys, slots, s);
    SlotsThere(keys, slots);
  }

  lemma QuotedFrom(s: Bytes, i: nat)
    requires i <= |s|
    ensures i < |s| ==> QuotedChars(s[i..]) == (if s[i] == QUOTE || s[i] == ESCAPE then [ESCAPE, s[i]] else [s[i]]) + QuotedChars(s[i + 1..])
    ensures i == |s| ==> QuotedChars(s[i..]) == []
    ensures s[0..] == s
  {
    if i < |s| {
      assert s[i..][1..] == s[i + 1..];
    }
  }
}
