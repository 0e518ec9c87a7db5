/**
 The line editor: a line with a cursor, edited byte by byte, and the echo that keeps the terminal
 in step without redrawing it.
 */
module LineEditor {
  import opened Words
  import opened Terminal

  const LINE_MAX := 512
  const HISTORY_MAX := 16
  const PARAMETERS_MAX := 16
  const MATCHES_MAX := 16
  const SPACE: u8 := 0x20
  const SLASH: u8 := '/' as int

  datatype Escape = NoEscape | EscStarted | Csi | Ss3

  /** How the owner of the line takes a submitted one. */
  datatype Verdict = Prompt | Defer | Stop

  datatype Completion = Completion(tokenStart: nat, prefixLength: nat, candidates: seq<Bytes>)

  /** A full redraw: the row erased, prompt and line printed, the cursor stepped back. */
  function Redrawn(prompt: Bytes, line: Bytes, cursor: nat): Bytes
    requires cursor <= |line|
  {
    Erase() + prompt + line + Lefts(|line| - cursor)
  }

  function Lefts(n: nat): Bytes { if n == 0 then [] else Lefts(n - 1) + Left() }

  function Rights(n: nat): Bytes { if n == 0 then [] else Rights(n - 1) + Right() }

  /** What the terminal is meant to show. */
  function Display(prompt: Bytes, line: Bytes, cursor: nat): Screen { Screen(prompt + line, |prompt| + cursor, Plain) }

  lemma FeedNothing(s: Screen)
    ensures Feed(s, []) == s
  {
  }

  lemma {:induction false} FeedLefts(row: Bytes, col: nat, n: nat)
    requires n <= col
    ensures Feed(Screen(row, col, Plain), Lefts(n)) == Screen(row, col - n, Plain)
  {
    hide Left, Feed;
    if n > 0 {
      FeedLefts(row, col, n - 1);
      FeedAppend(Screen(row, col, Plain), Lefts(n - 1), Left());
      FeedLeft(row, col - (n - 1));
    } else {
      FeedNothing(Screen(row, col, Plain));
    }
  }

  lemma {:induction false} FeedRights(row: Bytes, col: nat, n: nat)
    ensures Feed(Screen(row, col, Plain), Rights(n)) == Screen(row, col + n, Plain)
  {
    hide Right, Feed;
    if n > 0 {
      FeedRights(row, col, n - 1);
      FeedAppend(Screen(row, col, Plain), Rights(n - 1), Right());
      FeedRight(row, col + (n - 1));
    } else {
      FeedNothing(Screen(row, col, Plain));
    }
  }

  /** From any state of the row, a redraw shows exactly the line. */
  lemma RedrawShows(row: Bytes, col: nat, prompt: Bytes, line: Bytes, cursor: nat)
    requires Typed(prompt) && Typed(line) && cursor <= |line|
    ensures Feed(Screen(row, col, Plain), Redrawn(prompt, line, cursor)) == Display(prompt, line, cursor)
  {
    hide Erase, Lefts, Feed;
    var s, tail := Screen(row, col, Plain), Lefts(|line| - cursor);
    FeedAppend(s, Erase() + prompt + line, tail);
    FeedAppend(s, Erase() + prompt, line);
    FeedAppend(s, Erase(), prompt);
    FeedErase(row, col);
    FeedText([], 0, prompt);
    assert [][..0] + prompt + [] == prompt;
    FeedText(prompt, |prompt|, line);
    assert prompt[..|prompt|] + line + [] == prompt + line;
    FeedLefts(prompt + line, |prompt| + |line|, |line| - cursor);
  }

  // ----- Editing without a terminal

  /** All the editor remembers. */
  datatype State = State(line: Bytes, cursor: nat, history: seq<Bytes>, position: Option<nat>, scratch: Bytes, cut: Bytes,
                         escape: Escape, parameters: Bytes)

  predicate Sound(s: State) {
    && Typed(s.line) && |s.line| < LINE_MAX && s.cursor <= |s.line|
    && Typed(s.scratch) && |s.scratch| < LINE_MAX && Typed(s.cut) && |s.cut| < LINE_MAX
    && |s.history| <= HISTORY_MAX && (forall i :: 0 <= i < |s.history| ==> Typed(s.history[i]) && |s.history[i]| < LINE_MAX)
    && (s.position.Some? ==> s.position.value < |s.history|)
  }

  /** Where the stretch of blanks, or of anything else, that ends at `at` begins. */
  function Backward(line: Bytes, at: nat, blanks: bool): (start: nat)
    requires at <= |line|
    ensures start <= at
  {
    if at > 0 && (line[at - 1] == SPACE) == blanks then Backward(line, at - 1, blanks) else at
  }

  /** Where the stretch of blanks, or of anything else, that begins at `at` ends. */
  function Forward(line: Bytes, at: nat, blanks: bool): (end: nat)
    requires at <= |line|
    ensures at <= end <= |line|
    decreases |line| - at
  {
    if at < |line| && (line[at] == SPACE) == blanks then Forward(line, at + 1, blanks) else at
  }

  function WordBefore(line: Bytes, at: nat): (start: nat)
    requires at <= |line|
    ensures start <= at
  {
    Backward(line, Backward(line, at, true), false)
  }

  function Leftward(s: State, word: bool): (t: State)
    requires Sound(s)
    ensures Sound(t)
  {
    s.(cursor := if word then WordBefore(s.line, s.cursor) else if s.cursor > 0 then s.cursor - 1 else 0)
  }

  function Rightward(s: State, word: bool): (t: State)
    requires Sound(s)
    ensures Sound(t)
  {
    s.(cursor := if word then Forward(s.line, Forward(s.line, s.cursor, false), true)
                 else if s.cursor < |s.line| then s.cursor + 1 else |s.line|)
  }

  /** `before` and `after` the cursor; no longer a line out of the history. */
  function Edited(s: State, before: Bytes, after: Bytes): State {
    s.(line := before + after, cursor := |before|, position := None)
  }

  function Inserted(s: State, text: Bytes): (t: State)
    requires Sound(s) && Typed(text)
    ensures Sound(t)
  {
    if text == [] || |s.line| + |text| >= LINE_MAX then s else Edited(s, s.line[..s.cursor] + text, s.line[s.cursor..])
  }

  /** Takes a stretch out of the line and keeps it for pasting. */
  function Removed(s: State, start: nat, end: nat): (t: State)
    requires Sound(s) && end <= |s.line|
    ensures Sound(t)
  {
    if start >= end then s else Edited(s, s.line[..start], s.line[end..]).(cut := s.line[start..end])
  }

  function Rubbed(s: State): (t: State)
    requires Sound(s)
    ensures Sound(t)
  {
    if s.cursor == 0 then s else Edited(s, s.line[..s.cursor - 1], s.line[s.cursor..])
  }

  function Deleted(s: State): (t: State)
    requires Sound(s)
    ensures Sound(t)
  {
    if s.cursor == |s.line| then s else Edited(s, s.line[..s.cursor], s.line[s.cursor + 1..])
  }

  lemma NothingToDelete(s: State)
    requires Sound(s) && s.cursor == |s.line|
    ensures Deleted(s) == s
  {
  }

  function NextWordRemoved(s: State): (t: State)
    requires Sound(s)
    ensures Sound(t)
  {
    Removed(s, s.cursor, Forward(s.line, Forward(s.line, s.cursor, true), false))
  }

  function Replaced(s: State, tokenStart: nat, prefixLength: nat, text: Bytes, appendSpace: bool): (t: State)
    requires Sound(s) && Typed(text)
    ensures Sound(t)
  {
    if tokenStart + prefixLength != s.cursor || tokenStart + |Padded(text, appendSpace)| + (|s.line| - s.cursor) >= LINE_MAX then s
    else Edited(s, s.line[..tokenStart] + Padded(text, appendSpace), s.line[s.cursor..])
  }

  ghost predicate Fitting(c: Option<Completion>) {
    c.Some? ==> forall i :: 0 <= i < |c.value.candidates| ==> Typed(c.value.candidates[i])
  }

  /** One match is taken over, several as far as they agree, if that is further than what is there. */
  function Completed(s: State, c: Option<Completion>): (t: State)
    requires Sound(s) && Fitting(c)
    ensures Sound(t)
  {
    if c.None? || c.value.candidates == [] || |c.value.candidates| > MATCHES_MAX then s
    else
      var first := c.value.candidates[0];
      var common := Common(c.value.candidates, |first|);
      if |c.value.candidates| == 1 then Replaced(s, c.value.tokenStart, c.value.prefixLength, first, true)
      else if common > c.value.prefixLength then
        Replaced(s, c.value.tokenStart, c.value.prefixLength, first[..common], false)
      else s
  }

  function Older(s: State): (t: State)
    requires Sound(s)
    ensures Sound(t)
  {
    if s.history == [] then s
    else
      match s.position
      case None =>
        var p := |s.history| - 1;
        s.(scratch := s.line, position := Some(p), line := s.history[p], cursor := |s.history[p]|)
      case Some(p) =>
        if p == 0 then s else s.(position := Some(p - 1), line := s.history[p - 1], cursor := |s.history[p - 1]|)
  }

  /** Past the newest entry the line that was being typed comes back. */
  function Newer(s: State): (t: State)
    requires Sound(s)
    ensures Sound(t)
  {
    match s.position
    case None => s
    case Some(p) =>
      if p + 1 < |s.history| then s.(position := Some(p + 1), line := s.history[p + 1], cursor := |s.history[p + 1]|)
      else s.(position := None, line := s.scratch, cursor := |s.scratch|)
  }

  function Cleared(s: State): State { s.(line := [], cursor := 0, position := None, escape := NoEscape, parameters := []) }

  /** A submitted line joins the history unless it is empty or repeats the last one; the oldest makes room. */
  function Remembered(history: seq<Bytes>, line: Bytes): seq<Bytes> {
    if line == [] || (history != [] && history[|history| - 1] == line) then history
    else (if |history| == HISTORY_MAX then history[1..] else history) + [line]
  }

  function AfterCsi(s: State, final: u8): (t: State)
    requires Sound(s)
    ensures Sound(t)
  {
    var first, modifier := Parameter(s.parameters, 0), Parameter(s.parameters, 1);
    var word := modifier == 3 || modifier == 5 || first == 5;
    if final == 'A' as int then Older(s)
    else if final == 'B' as int then Newer(s)
    else if final == 'C' as int then Rightward(s, word)
    else if final == 'D' as int then Leftward(s, word)
    else if final == 'H' as int || (final == '~' as int && (first == 1 || first == 7)) then s.(cursor := 0)
    else if final == 'F' as int || (final == '~' as int && (first == 4 || first == 8)) then s.(cursor := |s.line|)
    else if final == '~' as int && first == 3 then Deleted(s)
    else s
  }

  function AfterMeta(s: State, c: u8): (t: State)
    requires Sound(s)
    ensures Sound(t)
  {
    if c == 'b' as int || c == 'B' as int then Leftward(s, true)
    else if c == 'f' as int || c == 'F' as int then Rightward(s, true)
    else if c == 'd' as int || c == 'D' as int then NextWordRemoved(s)
    else if c == 0x7F || c == 0x08 then Removed(s, WordBefore(s.line, s.cursor), s.cursor)
    else s
  }

  function AfterArrow(s: State, c: u8): (t: State)
    requires Sound(s)
    ensures Sound(t)
  {
    if c == 'A' as int then Older(s)
    else if c == 'B' as int then Newer(s)
    else if c == 'C' as int then Rightward(s, false)
    else if c == 'D' as int then Leftward(s, false)
    else if c == 'H' as int then s.(cursor := 0)
    else if c == 'F' as int then s.(cursor := |s.line|)
    else s
  }

  predicate Parametric(c: u8) { '0' as int <= c <= '9' as int || c == ';' as int || c == '?' as int }

  function AfterEscape(s: State, c: u8): (t: State)
    requires Sound(s)
    ensures Sound(t)
  {
    match s.escape
    case EscStarted =>
      if c == '[' as int then s.(escape := Csi, parameters := [])
      else if c == 'O' as int then s.(escape := Ss3)
      else AfterMeta(s, c).(escape := NoEscape, parameters := [])
    case Csi =>
      if Parametric(c) then (if |s.parameters| + 1 < PARAMETERS_MAX then s.(parameters := s.parameters + [c]) else s)
      else AfterCsi(s, c).(escape := NoEscape, parameters := [])
    case Ss3 => AfterArrow(s, c).(escape := NoEscape, parameters := [])
    case NoEscape => s
  }

  /** What one byte does to the line, whatever the terminal shows. */
  function AfterByte(s: State, c: u8, complete: (Bytes, nat) -> Option<Completion>): (t: State)
    requires Sound(s) && WellBehaved(complete)
    ensures Sound(t)
  {
    if s.escape != NoEscape then AfterEscape(s, c)
    else if c == 0x1B then s.(escape := EscStarted, parameters := [])
    else if c == 13 || c == 10 then Cleared(s.(history := Remembered(s.history, s.line)))
    else if c == 0x01 then s.(cursor := 0)
    else if c == 0x02 then Leftward(s, false)
    else if c == 0x05 then s.(cursor := |s.line|)
    else if c == 0x06 then Rightward(s, false)
    else if c == 0x10 then Older(s)
    else if c == 0x0E then Newer(s)
    else if c == 0x0B then Removed(s, s.cursor, |s.line|)
    else if c == 0x15 then Removed(s, 0, s.cursor)
    else if c == 0x17 then Removed(s, WordBefore(s.line, s.cursor), s.cursor)
    else if c == 0x19 then Inserted(s, s.cut)
    else if c == 0x03 then Cleared(s)
    else if c == 0x04 then Deleted(s)
    else if c == 0x08 || c == 0x7F then Rubbed(s)
    else if c == 9 then Completed(s, complete(s.line, s.cursor))
    else if Printable(c) then Inserted(s, [c])
    else s
  }

  /** What the byte means for the session. */
  function Outcome(s: State, c: u8, submit: Bytes -> Verdict, eofOnEmpty: bool): Verdict {
    if s.escape != NoEscape then Prompt
    else if c == 13 || c == 10 then submit(s.line)
    else if c == 0x04 && s.line == [] && eofOnEmpty then Stop
    else Prompt
  }

  /** The bytes up to the one that ends the session or holds back the prompt. */
  ghost function AfterAll(s: State, bytes: Bytes, e: Owner): (State, Verdict)
    requires Sound(s) && WellBehaved(e.complete)
    decreases |bytes|
  {
    if bytes == [] then (s, Prompt)
    else
      var t := AfterByte(s, bytes[0], e.complete);
      if Outcome(s, bytes[0], e.submit, e.eofOnEmpty) == Prompt then AfterAll(t, bytes[1..], e)
      else (t, Outcome(s, bytes[0], e.submit, e.eofOnEmpty))
  }

  /** The owner's part of the editor. */
  datatype Owner = Owner(eofOnEmpty: bool, submit: Bytes -> Verdict, complete: (Bytes, nat) -> Option<Completion>)

  /** What was just cut off the end of the line comes back where it was. */
  lemma CutThenPaste(s: State, complete: (Bytes, nat) -> Option<Completion>)
    requires Sound(s) && WellBehaved(complete) && s.escape == NoEscape && s.cursor < |s.line|
    ensures var t := AfterByte(s, 0x0B, complete);
      t.line == s.line[..s.cursor] && t.cut == s.line[s.cursor..]
      && AfterByte(t, 0x19, complete).line == s.line
  {
    assert s.line[..s.cursor] + s.line[s.cursor..] == s.line;
  }

  /** Looking at the history and coming back brings back the line that was being typed. */
  lemma UpThenDown(s: State, complete: (Bytes, nat) -> Option<Completion>)
    requires Sound(s) && WellBehaved(complete) && s.escape == NoEscape && s.position == None
    ensures var t := AfterByte(s, 0x10, complete); AfterByte(t, 0x0E, complete).line == s.line
  {
  }

  /** A typed character that is rubbed out at once leaves line and cursor as they were. */
  lemma TypeThenRub(s: State, c: u8, complete: (Bytes, nat) -> Option<Completion>)
    requires Sound(s) && WellBehaved(complete) && s.escape == NoEscape && Printable(c) && |s.line| + 1 < LINE_MAX
    ensures var t := AfterByte(s, c, complete);
      t.line == s.line[..s.cursor] + [c] + s.line[s.cursor..]
      && AfterByte(t, 0x7F, complete).line == s.line && AfterByte(t, 0x7F, complete).cursor == s.cursor
  {
    var t := Inserted(s, [c]);
    assert t.line[..t.cursor - 1] == s.line[..s.cursor] && t.line[t.cursor..] == s.line[s.cursor..];
    assert s.line[..s.cursor] + s.line[s.cursor..] == s.line;
  }

  /** A word deleted backwards is the stretch between where the word begins and the cursor. */
  lemma {:induction false} BackwardIs(line: Bytes, at: nat, blanks: bool)
    requires at <= |line|
    ensures var start := Backward(line, at, blanks);
      && (forall i :: start <= i < at ==> (line[i] == SPACE) == blanks)
      && (start == 0 || (line[start - 1] == SPACE) != blanks)
  {
    if at > 0 && (line[at - 1] == SPACE) == blanks {
      BackwardIs(line, at - 1, blanks);
    }
  }

  class Editor {
    const prompt: Bytes
    /** What a submitted line comes to, what could complete one, and whether the end of input ends the session. */
    const owner: Owner
    var line: Bytes
    var cursor: nat
    var history: seq<Bytes>
    /** Which history entry is shown, if one is. */
    var position: Option<nat>
    var scratch: Bytes
    var cut: Bytes
    var escape: Escape
    var parameters: Bytes
    /** The terminal at the other end. */
    ghost var screen: Screen

    ghost predicate Valid()
      reads this
    {
      Typed(prompt) && WellBehaved(owner.complete) && Sound(Abstract()) && screen.mode.Plain?
    }

    ghost function Abstract(): State
      reads this
    {
      State(line, cursor, history, position, scratch, cut, escape, parameters)
    }

    /** The terminal shows prompt and line, with its cursor where the editor's is. */
    ghost predicate Shown()
      reads this
      requires cursor <= |line|
    {
      screen == Display(prompt, line, cursor)
    }

    constructor (prompt: Bytes, owner: Owner)
      requires Typed(prompt) && WellBehaved(owner.complete)
      ensures Valid() && Shown() && this.prompt == prompt && this.owner == owner
      ensures Abstract() == State([], 0, [], None, [], [], NoEscape, [])
    {
      this.prompt, this.owner := prompt, owner;
      line, cursor, history, position, scratch, cut, escape, parameters := [], 0, [], None, [], [], NoEscape, [];
      screen := Screen(prompt, |prompt|, Plain);
    }

    method WriteAll(ghost text: Bytes)
      modifies this`screen
      ensures screen == Feed(old(screen), text)
    {
      screen := Feed(screen, text);
    }

    method Beep()
      requires Valid()
      modifies this`screen
      ensures Valid() && screen == old(screen)
    {
      FeedBeep(screen.row, screen.col);
      WriteAll(Terminal.Beep());
    }

    method Redraw()
      requires Valid()
      modifies this`screen
      ensures Valid() && Shown()
    {
      RedrawShows(screen.row, screen.col, prompt, line, cursor);
      WriteAll(Redrawn(prompt, line, cursor));
    }

    // ----- Moving

    method MoveLeft(word: bool)
      requires Valid() && Shown()
      modifies this`cursor, this`screen
      ensures Valid() && Shown() && Abstract() == Leftward(old(Abstract()), word)
    {
      if cursor == 0 {
        Beep();
        return;
      }
      var before := cursor;
      if !word {
        cursor := cursor - 1;
      } else {
        cursor := WordStart();
      }
      FeedLefts(prompt + line, |prompt| + before, before - cursor);
      WriteAll(Lefts(before - cursor));
    }

    /** Where the word ahead of the cursor starts. */
    method WordStart() returns (start: nat)
      requires cursor <= |line|
      ensures start == WordBefore(line, cursor)
    {
      start := cursor;
      while start > 0 && line[start - 1] == SPACE
        invariant start <= cursor && Backward(line, cursor, true) == Backward(line, start, true)
      {
        start := start - 1;
      }
      ghost var gap := start;
      while start > 0 && line[start - 1] != SPACE
        invariant start <= gap && Backward(line, gap, false) == Backward(line, start, false)
      {
        start := start - 1;
      }
    }

    /** The cursor goes past the word and the blanks behind it. */
    method PassWord()
      requires cursor <= |line|
      modifies this`cursor
      ensures cursor == Forward(line, Forward(line, old(cursor), false), true)
    {
      ghost var before := cursor;
      while cursor < |line| && line[cursor] != SPACE
        invariant before <= cursor <= |line|
        invariant Forward(line, before, false) == Forward(line, cursor, false)
      {
        cursor := cursor + 1;
      }
      ghost var gap := cursor;
      while cursor < |line| && line[cursor] == SPACE
        invariant gap <= cursor <= |line|
        invariant Forward(line, gap, true) == Forward(line, cursor, true)
      {
        cursor := cursor + 1;
      }
    }

    method MoveRight(word: bool)
      requires Valid() && Shown()
      modifies this`cursor, this`screen
      ensures Valid() && Shown() && Abstract() == Rightward(old(Abstract()), word)
    {
      if cursor >= |line| {
        Beep();
        return;
      }
      var before := cursor;
      if !word {
        cursor := cursor + 1;
      } else {
        PassWord();
      }
      FeedRights(prompt + line, |prompt| + before, cursor - before);
      WriteAll(Rights(cursor - before));
    }

    method MoveTo(target: nat)
      requires Valid() && target <= |line|
      modifies this`cursor, this`screen
      ensures Valid() && Shown() && Abstract() == old(Abstract()).(cursor := target)
    {
      cursor := target;
      Redraw();
    }

    // ----- Editing

    /** A typed character goes in at the cursor; only it and what follows it are printed. */
    method Insert(c: u8)
      requires Valid() && Shown() && Printable(c)
      modifies this`line, this`cursor, this`position, this`screen
      ensures Valid() && Shown() && Abstract() == Inserted(old(Abstract()), [c])
    {
      if |line| + 1 >= LINE_MAX {
        Beep();
        return;
      }
      ghost var before, tail := line[..cursor], line[cursor..];
      line := line[..cursor] + [c] + line[cursor..];
      cursor := cursor + 1;
      position := None;
      EchoInsert(prompt, before, c, tail);
      assert prompt + (before + tail) == prompt + before + tail && old(line) == before + tail;
      WriteAll([c]);
      if |line| != cursor {
        WriteAll(tail);
        WriteAll(Lefts(|tail|));
      }
    }

    method Backspace()
      requires Valid() && Shown()
      modifies this`line, this`cursor, this`position, this`screen
      ensures Valid() && Shown() && Abstract() == Rubbed(old(Abstract()))
    {
      if cursor == 0 {
        Beep();
        return;
      }
      line := line[..cursor - 1] + line[cursor..];
      cursor := cursor - 1;
      position := None;
      Redraw();
    }

    method Delete()
      requires Valid() && Shown()
      modifies this`line, this`position, this`screen
      ensures Valid() && Shown() && Abstract() == Deleted(old(Abstract()))
    {
      if cursor >= |line| {
        Beep();
        return;
      }
      line := line[..cursor] + line[cursor + 1..];
      position := None;
      Redraw();
    }

    /** Takes a stretch out of the line and keeps it for pasting. */
    method CutRange(start: nat, end: nat)
      requires Valid() && Shown() && end <= |line|
      modifies this`line, this`cursor, this`cut, this`position, this`screen
      ensures Valid() && Shown() && Abstract() == Removed(old(Abstract()), start, end)
    {
      if start >= end {
        return;
      }
      cut := line[start..end];
      line := line[..start] + line[end..];
      cursor := start;
      position := None;
      Redraw();
    }

    method DeletePreviousWord()
      requires Valid() && Shown()
      modifies this`line, this`cursor, this`cut, this`position, this`screen
      ensures Valid() && Shown() && Abstract() == Removed(old(Abstract()), WordBefore(old(line), old(cursor)), old(cursor))
    {
      if cursor == 0 {
        return;
      }
      var start := WordStart();
      CutRange(start, cursor);
    }

    method DeleteNextWord()
      requires Valid() && Shown()
      modifies this`line, this`cursor, this`cut, this`position, this`screen
      ensures Valid() && Shown() && Abstract() == NextWordRemoved(old(Abstract()))
    {
      if cursor >= |line| {
        return;
      }
      var end := cursor;
      while end < |line| && line[end] == SPACE
        invariant cursor <= end <= |line| && Forward(line, cursor, true) == Forward(line, end, true)
      {
        end := end + 1;
      }
      ghost var gap := end;
      while end < |line| && line[end] != SPACE
        invariant gap <= end <= |line| && Forward(line, gap, false) == Forward(line, end, false)
      {
        end := end + 1;
      }
      CutRange(cursor, end);
    }

    /** Puts back what was cut; cutting and pasting at once restores the line. */
    method Paste()
      requires Valid() && Shown()
      modifies this`line, this`cursor, this`position, this`screen
      ensures Valid() && Shown() && Abstract() == Inserted(old(Abstract()), cut)
    {
      if |cut| == 0 || |line| + |cut| >= LINE_MAX {
        return;
      }
      line := line[..cursor] + cut + line[cursor..];
      cursor := cursor + |cut|;
      position := None;
      Redraw();
    }

    /** Puts `text` in place of the token under the cursor, with a space behind it if asked for and not a directory. */
    method Replace(tokenStart: nat, prefixLength: nat, text: Bytes, appendSpace: bool) returns (ok: bool)
      requires Valid() && Shown() && Typed(text)
      modifies this`line, this`cursor, this`position, this`screen
      ensures Valid() && Shown() && Abstract() == Replaced(old(Abstract()), tokenStart, prefixLength, text, appendSpace)
    {
      if tokenStart > cursor || prefixLength != cursor - tokenStart {
        return false;
      }
      var padded := Padded(text, appendSpace);
      if tokenStart + |padded| + (|line| - cursor) >= LINE_MAX {
        Beep();
        return false;
      }
      line := line[..tokenStart] + padded + line[cursor..];
      cursor := tokenStart + |padded|;
      position := None;
      Redraw();
      ok := true;
    }

    /** One match is taken over, several are extended as far as they agree and then listed. */
    method Complete()
      requires Valid() && Shown()
      modifies this`line, this`cursor, this`position, this`screen
      ensures Valid() && Shown() && Abstract() == Completed(old(Abstract()), owner.complete(old(line), old(cursor)))
    {
      var c := owner.complete(line, cursor);
      if c.None? || |c.value.candidates| == 0 || |c.value.candidates| > MATCHES_MAX {
        Beep();
        return;
      }
      var tokenStart, prefixLength, candidates := c.value.tokenStart, c.value.prefixLength, c.value.candidates;
      if tokenStart > cursor || prefixLength != cursor - tokenStart {
        Beep();
        return;
      }
      assert Typed(candidates[0]);
      if |candidates| == 1 {
        var ok := Replace(tokenStart, prefixLength, candidates[0], true);
        return;
      }
      var common := CommonPrefix(candidates);
      if common > prefixLength {
        var ok := Replace(tokenStart, prefixLength, candidates[0][..common], false);
      }
      List(candidates);
      Redraw();
    }

    method List(candidates: seq<Bytes>)
      requires Valid() && forall i :: 0 <= i < |candidates| ==> Typed(candidates[i])
      modifies this`screen
      ensures Valid()
    {
      FeedNewRow(screen.row, screen.col);
      WriteAll(NewRow());
      var i := 0;
      while i < |candidates|
        invariant 0 <= i <= |candidates| && Valid()
      {
        FeedStaysPlain(screen, candidates[i]);
        WriteAll(candidates[i]);
        FeedStaysPlain(screen, [SPACE, SPACE]);
        WriteAll([SPACE, SPACE]);
        i := i + 1;
      }
      FeedNewRow(screen.row, screen.col);
      WriteAll(NewRow());
    }

    // ----- History

    method AddHistory()
      requires Valid()
      modifies this`history, this`position
      ensures Valid() && position == None && history == Remembered(old(history), line)
    {
      position := None;
      if |line| == 0 || (|history| != 0 && history[|history| - 1] == line) {
        return;
      }
      if |history| == HISTORY_MAX {
        history := history[1..];
      }
      history := history + [line];
    }

    method HistoryUp()
      requires Valid() && Shown()
      modifies this`line, this`cursor, this`position, this`scratch, this`screen
      ensures Valid() && Shown() && Abstract() == Older(old(Abstract()))
    {
      if |history| == 0 {
        Beep();
        return;
      }
      match position {
        case None =>
          scratch := line;
          position := Some(|history| - 1);
        case Some(p) =>
          if p == 0 {
            Beep();
            return;
          }
          position := Some(p - 1);
      }
      line := history[position.value];
      cursor := |line|;
      Redraw();
    }

    method HistoryDown()
      requires Valid() && Shown()
      modifies this`line, this`cursor, this`position, this`screen
      ensures Valid() && Shown() && Abstract() == Newer(old(Abstract()))
    {
      match position {
        case None =>
          Beep();
          return;
        case Some(p) =>
          if p + 1 < |history| {
            position := Some(p + 1);
            line := history[p + 1];
          } else {
            position := None;
            line := scratch;
          }
      }
      cursor := |line|;
      Redraw();
    }

    // ----- Bytes

    method ResetEscape()
      requires Valid()
      modifies this`escape, this`parameters
      ensures Valid() && Abstract() == old(Abstract()).(escape := NoEscape, parameters := [])
    {
      escape, parameters := NoEscape, [];
    }

    method CsiFinal(final: u8)
      requires Valid() && Shown()
      modifies this`line, this`cursor, this`position, this`scratch, this`screen
      ensures Valid() && Shown() && Abstract() == AfterCsi(old(Abstract()), final)
    {
      var first, modifier := Parameter(parameters, 0), Parameter(parameters, 1);
      var word := modifier == 3 || modifier == 5 || first == 5;
      if final == 'A' as int {
        HistoryUp();
      } else if final == 'B' as int {
        HistoryDown();
      } else if final == 'C' as int {
        MoveRight(word);
      } else if final == 'D' as int {
        MoveLeft(word);
      } else if final == 'H' as int || (final == '~' as int && (first == 1 || first == 7)) {
        MoveTo(0);
      } else if final == 'F' as int || (final == '~' as int && (first == 4 || first == 8)) {
        MoveTo(|line|);
      } else if final == '~' as int && first == 3 {
        Delete();
      } else {
        Beep();
      }
    }

    method EscapeByte(c: u8)
      requires Valid() && Shown() && escape != NoEscape
      modifies this`line, this`cursor, this`cut, this`position, this`scratch, this`screen, this`escape, this`parameters
      ensures Valid() && Shown() && Abstract() == AfterEscape(old(Abstract()), c)
    {
      hide Leftward, Rightward, Older, Newer, Removed, Deleted, WordBefore, AfterCsi, Display, Typed, WellBehaved;
      match escape {
        case EscStarted =>
          if c == '[' as int {
            escape, parameters := Csi, [];
            return;
          }
          if c == 'O' as int {
            escape := Ss3;
            return;
          }
          if c == 'b' as int || c == 'B' as int {
            MoveLeft(true);
          } else if c == 'f' as int || c == 'F' as int {
            MoveRight(true);
          } else if c == 'd' as int || c == 'D' as int {
            DeleteNextWord();
          } else if c == 0x7F || c == 0x08 {
            DeletePreviousWord();
          } else {
            Beep();
          }
        case Csi =>
          if Parametric(c) {
            if |parameters| + 1 < PARAMETERS_MAX {
              parameters := parameters + [c];
            }
            return;
          }
          CsiFinal(c);
        case Ss3 =>
          if c == 'A' as int {
            HistoryUp();
          } else if c == 'B' as int {
            HistoryDown();
          } else if c == 'C' as int {
            MoveRight(false);
          } else if c == 'D' as int {
            MoveLeft(false);
          } else if c == 'H' as int {
            MoveTo(0);
          } else if c == 'F' as int {
            MoveTo(|line|);
          } else {
            Beep();
          }
        case NoEscape =>
      }
      ResetEscape();
    }

    /** An empty line behind the prompt, on a new row. */
    method Fresh(ghost text: Bytes)
      requires Valid() && (text == NewRow() || exists shown :: Typed(shown) && text == shown + NewRow())
      modifies this`line, this`cursor, this`position, this`escape, this`parameters, this`screen
      ensures Valid() && Abstract() == Cleared(old(Abstract())) && screen == Screen([], 0, Plain)
    {
      line, cursor, position := [], 0, None;
      ResetEscape();
      if text == NewRow() {
        FeedNewRow(screen.row, screen.col);
      } else {
        ghost var shown :| Typed(shown) && text == shown + NewRow();
        FeedStaysPlain(screen, shown);
        FeedAppend(screen, shown, NewRow());
        FeedNewRow(Feed(screen, shown).row, Feed(screen, shown).col);
      }
      WriteAll(text);
    }

    method WritePrompt()
      requires Valid() && screen == Screen([], 0, Plain) && line == [] && cursor == 0
      modifies this`screen
      ensures Valid() && Shown()
    {
      FeedText([], 0, prompt);
      assert [][..0] + prompt + [] == prompt && prompt + [] == prompt;
      WriteAll(prompt);
    }

    /** A line goes to its owner; the next prompt follows unless the owner holds it back or ends the session. */
    method Submit() returns (verdict: Verdict, submitted: Bytes)
      requires Valid() && Shown()
      modifies this`line, this`cursor, this`history, this`position, this`escape, this`parameters, this`screen
      ensures Valid() && submitted == old(line) && verdict == owner.submit(old(line))
      ensures Abstract() == Cleared(old(Abstract()).(history := Remembered(old(history), old(line))))
      ensures verdict == Prompt ==> Shown()
    {
      submitted := line;
      AddHistory();
      verdict := owner.submit(line);
      Fresh(NewRow());
      if verdict == Prompt {
        WritePrompt();
      }
    }

    /** One byte from the terminal. Unless the session ends or its owner holds the prompt back, the terminal shows the line. */
    method HandleByte(c: u8) returns (outcome: Verdict)
      requires Valid() && Shown()
      modifies this
      ensures Valid() && (outcome == Prompt ==> Shown())
      ensures Abstract() == AfterByte(old(Abstract()), c, owner.complete)
      ensures outcome == Outcome(old(Abstract()), c, owner.submit, owner.eofOnEmpty)
    {
      hide Leftward, Rightward, Older, Newer, Removed, Inserted, Deleted, Rubbed, Completed, Cleared, Remembered, WordBefore,
        AfterEscape, Display, Typed, WellBehaved;
      outcome := Prompt;
      if escape != NoEscape {
        EscapeByte(c);
      } else if c == 0x1B {
        escape, parameters := EscStarted, [];
      } else if c == 13 || c == 10 {
        var submitted;
        outcome, submitted := Submit();
      } else if c == 0x01 {
        MoveTo(0);
      } else if c == 0x02 {
        MoveLeft(false);
      } else if c == 0x05 {
        MoveTo(|line|);
      } else if c == 0x06 {
        MoveRight(false);
      } else if c == 0x10 {
        HistoryUp();
      } else if c == 0x0E {
        HistoryDown();
      } else if c == 0x0B {
        CutRange(cursor, |line|);
      } else if c == 0x0C {
        Redraw();
      } else if c == 0x15 {
        CutRange(0, cursor);
      } else if c == 0x17 {
        DeletePreviousWord();
      } else if c == 0x19 {
        Paste();
      } else if c == 0x03 {
        Interrupt();
      } else if c == 0x04 {
        if |line| == 0 && owner.eofOnEmpty {
          NothingToDelete(Abstract());
          return Stop;
        }
        Delete();
      } else if c == 0x08 || c == 0x7F {
        Backspace();
      } else if c == 9 {
        Complete();
      } else if Printable(c) {
        Insert(c);
      }
    }

    method Interrupt()
      requires Valid() && Shown()
      modifies this`line, this`cursor, this`position, this`escape, this`parameters, this`screen
      ensures Valid() && Shown() && Abstract() == Cleared(old(Abstract()))
    {
      ghost var shown: Bytes := ['^' as int, 'C' as int];
      assert Typed(shown);
      Fresh(shown + NewRow());
      WritePrompt();
    }

    /** Whatever bytes arrive, the terminal shows prompt, line and cursor, as a full redraw would. */
    method HandleAll(bytes: Bytes) returns (outcome: Verdict)
      requires Valid() && Shown()
      modifies this
      ensures Valid() && (outcome == Prompt ==> Shown())
      ensures (Abstract(), outcome) == AfterAll(old(Abstract()), bytes, owner)
    {
      outcome := Prompt;
      ghost var whole := AfterAll(Abstract(), bytes, owner);
      var i := 0;
      while i < |bytes| && outcome == Prompt
        invariant 0 <= i <= |bytes| && Valid() && (outcome == Prompt ==> Shown())
        invariant whole == if outcome == Prompt then AfterAll(Abstract(), bytes[i..], owner) else (Abstract(), outcome)
      {
        assert bytes[i..][1..] == bytes[i + 1..];
        outcome := HandleByte(bytes[i]);
        i := i + 1;
      }
    }
  }

  ghost predicate WellBehaved(complete: (Bytes, nat) -> Option<Completion>) {
    forall line, cursor :: Fitting(complete(line, cursor))
  }

  function Padded(text: Bytes, appendSpace: bool): Bytes {
    if appendSpace && text != [] && text[|text| - 1] != SLASH then text + [SPACE] else text
  }

  predicate AllAgree(candidates: seq<Bytes>, n: nat)
    requires candidates != []
  {
    forall k :: 0 <= k < |candidates| ==> Agree(candidates[0], candidates[k], n)
  }

  /** How far all candidates agree, letter case aside: the greatest such length up to `n`. */
  function Common(candidates: seq<Bytes>, n: nat): (length: nat)
    requires candidates != []
    ensures length <= n
  {
    if n == 0 || AllAgree(candidates, n) then n else Common(candidates, n - 1)
  }

  /** Agreement up to some length is agreement up to any shorter one, so the greatest length is the one beyond which it ends. */
  lemma {:induction false} CommonIs(candidates: seq<Bytes>, n: nat, length: nat)
    requires candidates != [] && length <= n && AllAgree(candidates, length)
    requires length < n ==> !AllAgree(candidates, length + 1)
    ensures Common(candidates, n) == length
  {
    if length < n {
      CommonIs(candidates, n - 1, length);
    }
  }

  function Lower(c: u8): u8 { if 'A' as int <= c <= 'Z' as int then c + 32 else c }

  method CommonPrefix(candidates: seq<Bytes>) returns (length: nat)
    requires candidates != []
    ensures length == Common(candidates, |candidates[0]|)
  {
    length := |candidates[0]|;
    var index := 1;
    while index < |candidates| && length > 0
      invariant 1 <= index <= |candidates| && length <= |candidates[0]|
      invariant forall k :: 0 <= k < index ==> Agree(candidates[0], candidates[k], length)
      invariant length < |candidates[0]| ==> exists k :: 0 <= k < |candidates| && !Agree(candidates[0], candidates[k], length + 1)
    {
      var current := 0;
      while current < length && current < |candidates[index]| && Lower(candidates[0][current]) == Lower(candidates[index][current])
        invariant current <= length && Agree(candidates[0], candidates[index], current)
      {
        current := current + 1;
      }
      if current < length {
        assert !Agree(candidates[0], candidates[index], current + 1);
      }
      length := current;
      index := index + 1;
    }
    if length == 0 {
      NothingAgrees(candidates);
    }
    CommonIs(candidates, |candidates[0]|, length);
  }

  lemma NothingAgrees(candidates: seq<Bytes>)
    requires candidates != []
    ensures AllAgree(candidates, 0)
  {
  }

  predicate Agree(a: Bytes, b: Bytes, n: nat) {
    n <= |a| && n <= |b| && forall i :: 0 <= i < n ==> Lower(a[i]) == Lower(b[i])
  }

  /** The `index`-th number of a control sequence; -1 when there is none. */
  function Parameter(parameters: Bytes, index: nat): int { ParameterFrom(parameters, index, 0, false) }

  function ParameterFrom(b: Bytes, index: nat, value: nat, have: bool): int
    decreases |b|
  {
    if b == [] then (if index == 0 && have then value else -1)
    else if b[0] == ';' as int then
      if index == 0 then (if have then value else 0) else ParameterFrom(b[1..], index - 1, 0, false)
    else if '0' as int <= b[0] <= '9' as int then
      ParameterFrom(b[1..], index, if value < 1000 then value * 10 + (b[0] as int - '0' as int) else value, true)
    else ParameterFrom(b[1..], index, value, have)
  }

  lemma {:induction false} FeedStaysPlain(s: Screen, b: Bytes)
    requires s.mode.Plain? && Typed(b)
    ensures Feed(s, b).mode.Plain?
    decreases |b|
  {
    if b != [] {
      assert Printable(b[0]);
      FeedStaysPlain(Feed1(s, b[0]), b[1..]);
    }
  }

  /** Printing the typed character and what follows it leaves the row as a redraw would. */
  lemma EchoInsert(prompt: Bytes, before: Bytes, c: u8, tail: Bytes)
    requires Printable(c) && Typed(tail)
    ensures var s := Screen(prompt + before + tail, |prompt| + |before|, Plain);
      var t := Feed(s, [c]);
      && (tail == [] ==> t == Display(prompt, before + [c] + tail, |before| + 1))
      && (tail != [] ==> Feed(Feed(t, tail), Lefts(|tail|)) == Display(prompt, before + [c] + tail, |before| + 1))
  {
    hide Lefts, Feed;
    var row, col := prompt + before + tail, |prompt| + |before|;
    var s := Screen(row, col, Plain);
    FeedText(row, col, [c]);
    FeedAppend(s, [c], tail);
    FeedText(row, col, [c] + tail);
    assert row[..col] == prompt + before;
    assert row[..col] + ([c] + tail) + [] == prompt + (before + [c] + tail);
    if tail == [] {
      assert [c] + tail == [c];
    } else {
      FeedLefts(prompt + (before + [c] + tail), col + 1 + |tail|, |tail|);
    }
  }
}
