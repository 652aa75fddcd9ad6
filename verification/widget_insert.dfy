/**
  Where appended text lands. The widget call behind appendText inserts at
  the widget's text cursor, not at the end of the buffer; only then is the
  cursor moved to the end and the boundary re-anchored there. When the user
  has moved the cursor back inside the pending line (with Left, which the
  guard allows after the boundary) and presses Enter, the newline splits the
  line: the tail of the command ends up after the newline, on the protected
  side of the new boundary, while the whole command is still executed.

  The snap that moves a stray cursor to the end runs only at the start of a
  key press. When the user clicks into the protected text, or presses PageUp
  and the widget moves the cursor up a page, and then output, a lifecycle
  notice or a programmatic command's prompt or error arrives, that text goes
  in at the cursor, inside text that was already protected.

  `AppendTextAtCursor`, `SubmitAsWritten` and the two counterexample lemmas
  model that behaviour; `Terminal.AppendText` and `Keys.Submit`, used
  everywhere else in the model, append at the end as the re-anchoring
  evidently assumes.
 */
module WidgetInsert {
  import opened Text
  import opened Terminal
  import opened Keys
  import opened Session

  /** appendText as the widget performs it: insertion at the cursor, then cursor and boundary to the end. */
  function AppendTextAtCursor(s: State, text: string): (r: State)
    requires Wf(s)
    ensures Wf(r) && SameSession(s, r)
    ensures |r.buffer| == |s.buffer| + |text|
    ensures r.buffer[..s.cursor] == s.buffer[..s.cursor]
    ensures r.buffer[s.cursor..s.cursor + |text|] == text
    ensures r.buffer[s.cursor + |text|..] == s.buffer[s.cursor..]
    ensures r.boundary == |r.buffer| && r.cursor == |r.buffer|
  {
    var b := s.buffer[..s.cursor] + text + s.buffer[s.cursor..];
    assert b[s.cursor..s.cursor + |text|] == text;
    assert b[s.cursor + |text|..] == s.buffer[s.cursor..];
    s.(buffer := b, cursor := |b|, boundary := |b|)
  }

  /**
    With the cursor at the end the two agree. Every append and every Up or
    Down leaves it there; a click, PageUp, Left, Home, Backspace or a
    character typed before the end can leave it elsewhere, and there the two
    differ.
   */
  lemma AgreesAtEnd(s: State, text: string)
    requires Wf(s) && s.cursor == |s.buffer|
    ensures AppendTextAtCursor(s, text) == AppendText(s, text)
  {
    assert s.buffer[..s.cursor] + text + s.buffer[s.cursor..] == s.buffer + text;
  }

  /**
    Enter as written: the command is read from the boundary to the end, the
    newline goes in at the cursor, then the command is executed (its own
    appends happen with the cursor already at the end, so they agree with
    appending at the end).
   */
  function SubmitAsWritten(s: State, cwd: Option<string>): (r: State)
    requires Wf(s)
    ensures Wf(r)
    ensures !AllSpace(Pending(s)) ==> r.history == s.history + [Strip(Pending(s))]
  {
    ExecuteCommand(AppendTextAtCursor(s, "\n"), Strip(Pending(s)), cwd)
  }

  /** The state after the prompt `PS> ` and typing `ls`. */
  const TypedLs: State := State("PS> ls", 6, 4, [], 0, true, [])

  /**
    Counterexample: after typing `ls` and pressing Left once, Enter runs
    `ls` but shows `l`, a newline, then `s`, and the `s` is now on the
    protected side of the boundary.
   */
  lemma EnterMidLineSplitsLine()
    ensures MoveLeft(TypedLs).cursor == 5
    ensures var r := SubmitAsWritten(MoveLeft(TypedLs), None);
      && r.writes == ["ls\n"]
      && r.buffer == "PS> l\ns"
      && r.boundary == 7
      && r.buffer[4..6] != "ls"
  {
    var s := MoveLeft(TypedLs);
    assert Pending(s) == "ls";
    StripTrimmed("ls");
    var shown := AppendTextAtCursor(s, "\n");
    assert shown.buffer == "PS> l" + "\n" + "s";
    assert ("ls" + "\n") == "ls\n";
  }

  /**
    The corrected Enter keeps the line the user sees intact: the pending
    text stays right after the boundary, followed by the newline, wherever
    the cursor was inside the line.
   */
  lemma SubmitKeepsLine(s: State, cwd: Option<string>)
    requires Wf(s)
    ensures var r := HandleKey(s, Enter, cwd);
      r.buffer[s.boundary..|s.buffer| + 1] == Pending(s) + "\n"
  {
    var r := HandleKey(s, Enter, cwd);
    assert Pending(Snap(s)) == Pending(s);
    assert r.buffer[..|s.buffer| + 1] == s.buffer + "\n";
    assert r.buffer[s.boundary..|s.buffer| + 1] == (s.buffer + "\n")[s.boundary..];
  }

  /** The state right after the prompt `PS> `, with an empty line. */
  const Prompted: State := State("PS> ", 4, 4, [], 0, true, [])

  /**
    Counterexample: a click inside the prompt followed by output, with no key
    press between them, puts the output inside the protected text. With the
    corrected append the protected text survives (`Session.StepKeepsProtectedPrefix`).
   */
  lemma ClickThenOutputEditsProtected()
    ensures PlaceCursor(Prompted, 2).cursor == 2
    ensures var r := AppendTextAtCursor(PlaceCursor(Prompted, 2), "x");
      && r.buffer == "PSx> "
      && r.buffer[..Prompted.boundary] != Protected(Prompted)
    ensures var r := Step(Step(Prompted, Click(2)), Output("x"));
      r.buffer[..Prompted.boundary] == Protected(Prompted)
  {
    var c := PlaceCursor(Prompted, 2);
    var r := AppendTextAtCursor(c, "x");
    assert r.buffer == "PS" + "x" + "> ";
    assert r.buffer[..4][2] == 'x';
    StepKeepsProtectedPrefix(Prompted, Click(2));
    StepKeepsProtectedPrefix(c, Output("x"));
  }
}
