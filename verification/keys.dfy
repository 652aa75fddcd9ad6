/**
  Key handling of the terminal panel (its event filter): the cursor snap,
  Enter, history navigation with Up and Down, and the guards on Backspace,
  Left and Home that keep edits out of the text before the boundary.

  Keys the filter does not consume go to the widget's own editing. Of that
  default editing only the parts the guards interact with are modelled:
  typing a character at the cursor, Backspace deleting the character before
  the cursor, and Left and Right moving the cursor by one.
 */
module Keys {
  import opened Text
  import opened Terminal

  /** The keys the model distinguishes; `Other` is any key that leaves the modelled state alone. */
  datatype Key = Enter | Up | Down | Backspace | Left | Right | Home | Char(c: char) | Other

  /** The edit leaves the boundary where it was and the text before it untouched. */
  ghost predicate KeepsProtected(s: State, r: State)
    requires s.boundary <= |s.buffer| && r.boundary <= |r.buffer|
  {
    r.boundary == s.boundary && Protected(r) == Protected(s)
  }

  /**
    The first step of every key press: a cursor inside the protected text is
    moved to the end of the buffer; a cursor at or after the boundary stays.
   */
  function Snap(s: State): (r: State)
    requires Wf(s)
    ensures Wf(r) && SameSession(s, r)
    ensures r.buffer == s.buffer && r.boundary == s.boundary
    ensures r.boundary <= r.cursor
    ensures s.cursor < s.boundary ==> r.cursor == |s.buffer|
    ensures s.boundary <= s.cursor ==> r == s
  {
    if s.cursor < s.boundary then s.(cursor := |s.buffer|) else s
  }

  /**
    Enter: the pending line, stripped, is the command. A newline is shown
    first, then the command is executed, so the old display stays a prefix of
    the new one and the next line starts at the end. A blank or
    whitespace-only line records nothing and writes nothing.
   */
  function Submit(s: State, cwd: Option<string>): (r: State)
    requires Wf(s)
    ensures Wf(r)
    ensures |s.buffer| + 1 <= |r.buffer| && r.buffer[..|s.buffer| + 1] == s.buffer + "\n"
    ensures r.boundary == |r.buffer| && r.cursor == |r.buffer|
    ensures r.running == s.running
    ensures AllSpace(Pending(s)) ==>
      SameSession(s, r) && r.buffer == s.buffer + "\n" + PromptText(cwd)
    ensures !AllSpace(Pending(s)) ==>
      && r.history == s.history + [Strip(Pending(s))]
      && r.index == |r.history|
      && r.writes == (if s.running then s.writes + [Strip(Pending(s)) + "\n"] else s.writes)
  {
    var command := Strip(Pending(s));
    var shown := AppendText(s, "\n");
    var r := ExecuteCommand(shown, command, cwd);
    assert r.buffer[..|shown.buffer|] == shown.buffer;
    r
  }

  /**
    Up: with an empty history or at index 0 nothing happens. Otherwise the
    index moves back by one and the pending line becomes exactly the command
    at the new index. The text before the boundary is untouched either way.
   */
  function HistoryUp(s: State): (r: State)
    requires Wf(s)
    ensures Wf(r)
    ensures KeepsProtected(s, r)
    ensures r.history == s.history && r.running == s.running && r.writes == s.writes
    ensures r.index == (if s.index > 0 then s.index - 1 else s.index)
    ensures s.index > 0 ==> Pending(r) == s.history[r.index] && r.cursor == |r.buffer|
    ensures s.index == 0 ==> r == s
  {
    if |s.history| > 0 && s.index > 0 then
      var i := s.index - 1;
      var b := s.buffer[..s.boundary] + s.history[i];
      s.(index := i, buffer := b, cursor := |b|)
    else
      s
  }

  /** The line Down shows for a history index: the command there, or an empty line past the end. */
  function Browsed(history: seq<string>, i: int): string {
    if 0 <= i < |history| then history[i] else ""
  }

  /**
    Down: the pending line is always cleared first. The index then moves
    forward by one unless it is already past the end, and the pending line
    becomes the command at the new index, or stays empty past the end.
   */
  function HistoryDown(s: State): (r: State)
    requires Wf(s)
    ensures Wf(r)
    ensures KeepsProtected(s, r)
    ensures r.history == s.history && r.running == s.running && r.writes == s.writes
    ensures r.index == (if s.index < |s.history| then s.index + 1 else s.index)
    ensures Pending(r) == Browsed(s.history, s.index + 1)
    ensures r.cursor == |r.buffer|
  {
    var cleared := s.buffer[..s.boundary];
    if |s.history| > 0 && s.index < |s.history| - 1 then
      var i := s.index + 1;
      var b := cleared + s.history[i];
      s.(index := i, buffer := b, cursor := |b|)
    else if s.index == |s.history| - 1 then
      s.(index := s.index + 1, buffer := cleared, cursor := |cleared|)
    else
      s.(buffer := cleared, cursor := |cleared|)
  }

  /**
    Backspace: consumed and ignored when the cursor is at or before the
    boundary; otherwise the character before the cursor is deleted.
   */
  function DeleteBack(s: State): (r: State)
    requires Wf(s)
    ensures Wf(r) && SameSession(s, r)
    ensures KeepsProtected(s, r)
    ensures s.cursor <= s.boundary ==> r == s
    ensures s.boundary < s.cursor ==>
      |r.buffer| == |s.buffer| - 1 && r.cursor == s.cursor - 1
      && r.buffer == s.buffer[..s.cursor - 1] + s.buffer[s.cursor..]
  {
    if s.cursor <= s.boundary then
      s
    else
      var b := s.buffer[..s.cursor - 1] + s.buffer[s.cursor..];
      assert b[..s.boundary] == s.buffer[..s.boundary];
      s.(buffer := b, cursor := s.cursor - 1)
  }

  /** Left: consumed and ignored at or before the boundary; otherwise one step left. */
  function MoveLeft(s: State): (r: State)
    requires Wf(s)
    ensures Wf(r) && SameSession(s, r)
    ensures r.buffer == s.buffer && r.boundary == s.boundary
    ensures s.cursor <= s.boundary ==> r.cursor == s.cursor
    ensures s.boundary < s.cursor ==> r.cursor == s.cursor - 1
    ensures s.boundary <= s.cursor ==> s.boundary <= r.cursor
  {
    if s.cursor <= s.boundary then s else s.(cursor := s.cursor - 1)
  }

  /** Right, left to the widget: one step right, staying put at the end. */
  function MoveRight(s: State): (r: State)
    requires Wf(s)
    ensures Wf(r) && SameSession(s, r)
    ensures r.buffer == s.buffer && r.boundary == s.boundary
    ensures s.cursor <= r.cursor <= s.cursor + 1
    ensures r.cursor == s.cursor <==> s.cursor == |s.buffer|
  {
    if s.cursor < |s.buffer| then s.(cursor := s.cursor + 1) else s
  }

  /** Home: the cursor goes to the boundary, never to the start of the protected text. */
  function MoveHome(s: State): (r: State)
    requires Wf(s)
    ensures Wf(r) && SameSession(s, r)
    ensures r.buffer == s.buffer && r.boundary == s.boundary
    ensures r.cursor == s.boundary
  {
    s.(cursor := s.boundary)
  }

  /**
    A printable key, left to the widget: the character is inserted at the
    cursor, which the snap has placed at or after the boundary.
   */
  function InsertChar(s: State, c: char): (r: State)
    requires Wf(s) && s.boundary <= s.cursor
    ensures Wf(r) && SameSession(s, r)
    ensures KeepsProtected(s, r)
    ensures |r.buffer| == |s.buffer| + 1 && r.cursor == s.cursor + 1
    ensures r.buffer[s.cursor] == c
    ensures r.buffer[..s.cursor] == s.buffer[..s.cursor] && r.buffer[s.cursor + 1..] == s.buffer[s.cursor..]
  {
    var b := s.buffer[..s.cursor] + [c] + s.buffer[s.cursor..];
    assert b[..s.boundary] == s.buffer[..s.boundary];
    assert b[s.cursor + 1..] == s.buffer[s.cursor..];
    s.(buffer := b, cursor := s.cursor + 1)
  }

  /**
    The event filter for one key press: snap, then dispatch. After any of
    the modelled keys the cursor is at or after the boundary. Every key but Enter leaves the
    boundary and the protected text alone and never touches history or the
    process; Enter only appends to the display.
   */
  function HandleKey(s: State, key: Key, cwd: Option<string>): (r: State)
    requires Wf(s)
    ensures Wf(r)
    ensures r.boundary <= r.cursor
    ensures r.running == s.running
    ensures key != Enter ==> KeepsProtected(s, r)
    ensures key != Enter ==> r.history == s.history && r.writes == s.writes
    ensures key == Enter ==>
      |s.buffer| < |r.buffer| && r.buffer[..|s.buffer|] == s.buffer && r.boundary == |r.buffer|
  {
    var t := Snap(s);
    match key
    case Enter =>
      var r := Submit(t, cwd);
      assert r.buffer[..|s.buffer|] == r.buffer[..|s.buffer| + 1][..|s.buffer|];
      r
    case Up => HistoryUp(t)
    case Down => HistoryDown(t)
    case Backspace => DeleteBack(t)
    case Left => MoveLeft(t)
    case Right => MoveRight(t)
    case Home => MoveHome(t)
    case Char(c) => InsertChar(t, c)
    case Other => t
  }

  /**
    Backspace with the cursor inside the protected text is not a no-op: the
    snap moves the cursor to the end first, and the widget then deletes the
    last character of a non-empty pending line.
   */
  lemma BackspaceAfterSnap(s: State, cwd: Option<string>)
    requires Wf(s) && s.cursor < s.boundary < |s.buffer|
    ensures HandleKey(s, Backspace, cwd).buffer == s.buffer[..|s.buffer| - 1]
    ensures |HandleKey(s, Backspace, cwd).buffer| == |s.buffer| - 1
  {
    var t := Snap(s);
    assert t.cursor == |s.buffer|;
    assert s.buffer[..|s.buffer| - 1] + s.buffer[|s.buffer|..] == s.buffer[..|s.buffer| - 1];
  }
}
