/**
 A terminal row that does not wrap: what printed characters and the few control sequences of the
 line editor do to it.
 */
module Terminal {
  import opened Words

  const ESC: u8 := 0x1B
  const CR: u8 := 13
  const LF: u8 := 10
  const BEL: u8 := 7
  const BRACKET: u8 := '[' as int

  datatype Mode = Plain | Started | Sequence(parameters: Bytes)

  /** The current row, the column of the cursor, and how far a control sequence has come. */
  datatype Screen = Screen(row: Bytes, col: nat, mode: Mode)

  predicate Printable(c: u8) { 0x20 <= c <= 0x7E }

  predicate Typed(b: Bytes) { forall i :: 0 <= i < |b| ==> Printable(b[i]) }

  function Blanks(n: nat): (b: Bytes)
    ensures |b| == n
  {
    if n == 0 then [] else Blanks(n - 1) + [0x20]
  }

  /** A character put at a column, over whatever is there. */
  function PutAt(row: Bytes, col: nat, c: u8): Bytes {
    if col < |row| then row[col := c] else row + Blanks(col - |row|) + [c]
  }

  function Control(s: Screen, final: u8): Screen {
    match s.mode
    case Sequence(parameters) =>
      if final == 'D' as int then Screen(s.row, if s.col > 0 then s.col - 1 else 0, Plain)
      else if final == 'C' as int then Screen(s.row, s.col + 1, Plain)
      else if final == 'K' as int && parameters == ['2' as int] then Screen([], s.col, Plain)
      else s.(mode := Plain)
    case _ => s.(mode := Plain)
  }

  function Feed1(s: Screen, c: u8): Screen {
    match s.mode
    case Started => if c == BRACKET then s.(mode := Sequence([])) else s.(mode := Plain)
    case Sequence(parameters) =>
      if '0' as int <= c <= '9' as int || c == ';' as int then s.(mode := Sequence(parameters + [c])) else Control(s, c)
    case Plain =>
      if c == ESC then s.(mode := Started)
      else if c == CR then s.(col := 0)
      else if c == LF then s.(row := [])
      else if Printable(c) then Screen(PutAt(s.row, s.col, c), s.col + 1, Plain)
      else s
  }

  function Feed(s: Screen, b: Bytes): Screen
    decreases |b|
  {
    if b == [] then s else Feed(Feed1(s, b[0]), b[1..])
  }

  lemma {:induction false} FeedAppend(s: Screen, a: Bytes, b: Bytes)
    ensures Feed(s, a + b) == Feed(Feed(s, a), b)
    decreases |a|
  {
    if a == [] {
      assert a + b == b;
    } else {
      assert (a + b)[1..] == a[1..] + b;
      FeedAppend(Feed1(s, a[0]), a[1..], b);
    }
  }

  /** Text written over a row replaces what was there, byte for byte. */
  lemma {:induction false} FeedText(row: Bytes, col: nat, b: Bytes)
    requires Typed(b) && col <= |row|
    ensures Feed(Screen(row, col, Plain), b) ==
            Screen(row[..col] + b + (if col + |b| < |row| then row[col + |b|..] else []), col + |b|, Plain)
    decreases |b|
  {
    if b == [] {
      assert row == row[..col] + [] + row[col..];
    } else {
      assert Printable(b[0]);
      var next := PutAt(row, col, b[0]);
      assert next[..col + 1] == row[..col] + [b[0]];
      FeedText(next, col + 1, b[1..]);
      assert b == [b[0]] + b[1..];
      assert row[..col] + b == next[..col + 1] + b[1..];
      if col + |b| < |row| {
        assert next[col + |b|..] == row[col + |b|..];
      }
    }
  }

  // ----- The sequences the editor sends

  function Left(): Bytes { [ESC, BRACKET, 'D' as int] }

  function Right(): Bytes { [ESC, BRACKET, 'C' as int] }

  function Erase(): Bytes { [CR, ESC, BRACKET, '2' as int, 'K' as int] }

  function NewRow(): Bytes { [CR, LF] }

  function Beep(): Bytes { [BEL] }

  lemma FeedTwo(s: Screen, a: u8, b: u8)
    ensures Feed(s, [a, b]) == Feed1(Feed1(s, a), b)
  {
    var t := Feed1(s, a);
    assert [a, b][1..] == [b];
    assert Feed(t, [b]) == Feed(Feed1(t, b), [b][1..]);
  }

  lemma FeedThree(s: Screen, a: u8, b: u8, c: u8)
    ensures Feed(s, [a, b, c]) == Feed1(Feed1(Feed1(s, a), b), c)
  {
    assert [a, b, c][1..] == [b, c];
    FeedTwo(Feed1(s, a), b, c);
  }

  lemma FeedLeft(row: Bytes, col: nat)
    ensures Feed(Screen(row, col, Plain), Left()) == Screen(row, if col > 0 then col - 1 else 0, Plain)
  {
    FeedThree(Screen(row, col, Plain), ESC, BRACKET, 'D' as int);
  }

  lemma FeedRight(row: Bytes, col: nat)
    ensures Feed(Screen(row, col, Plain), Right()) == Screen(row, col + 1, Plain)
  {
    FeedThree(Screen(row, col, Plain), ESC, BRACKET, 'C' as int);
  }

  lemma FeedErase(row: Bytes, col: nat)
    ensures Feed(Screen(row, col, Plain), Erase()) == Screen([], 0, Plain)
  {
    var s := Screen(row, col, Plain);
    assert Erase()[1..] == [ESC, BRACKET, '2' as int, 'K' as int];
    assert [ESC, BRACKET, '2' as int, 'K' as int][1..] == [BRACKET, '2' as int, 'K' as int];
    FeedThree(Feed1(Feed1(s, CR), ESC), BRACKET, '2' as int, 'K' as int);
    assert [] + ['2' as int] == ['2' as int];
  }

  lemma FeedNewRow(row: Bytes, col: nat)
    ensures Feed(Screen(row, col, Plain), NewRow()) == Screen([], 0, Plain)
  {
    FeedTwo(Screen(row, col, Plain), CR, LF);
  }

  lemma FeedBeep(row: Bytes, col: nat)
    ensures Feed(Screen(row, col, Plain), Beep()) == Screen(row, col, Plain)
  {
    assert Beep()[1..] == [];
  }
}
