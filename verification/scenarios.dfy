/**
  Whole-session scenarios: typing a line and submitting it, and browsing the
  history with Up and Down after three commands have been submitted.
 */
module Scenarios {
  import opened Text
  import opened Terminal
  import opened Keys
  import opened Session

  /** The key presses that type `w`, one character each. */
  function Typed(w: string): (events: seq<Event>)
    ensures |events| == |w|
  {
    if w == [] then [] else [Press(Char(w[0]), None)] + Typed(w[1..])
  }

  lemma RunSnoc(s: State, events: seq<Event>, e: Event)
    requires Wf(s)
    ensures Run(s, events + [e]) == Step(Run(s, events), e)
  {
    RunAppend(s, events, [e]);
  }

  /** One typed character at the end of the buffer. */
  lemma TypeOne(s: State, c: char)
    requires Wf(s) && s.boundary <= s.cursor == |s.buffer|
    ensures Step(s, Press(Char(c), None)) == s.(buffer := s.buffer + [c], cursor := |s.buffer| + 1)
  {
    assert Snap(s) == s;
    var t := InsertChar(s, c);
    assert t.buffer == s.buffer + [c];
  }

  lemma StepEnter(s: State, cwd: Option<string>)
    requires Wf(s) && s.boundary <= s.cursor
    ensures Step(s, Press(Enter, cwd)) == Submit(s, cwd)
  {
    assert Snap(s) == s;
  }

  /** Typing at the end of the buffer appends exactly the typed text and touches nothing else. */
  lemma {:induction false} TypingAppends(s: State, w: string)
    requires Wf(s) && s.boundary <= s.cursor == |s.buffer|
    ensures Run(s, Typed(w)) == s.(buffer := s.buffer + w, cursor := |s.buffer| + |w|)
    decreases |w|
  {
    if w != [] {
      TypeOne(s, w[0]);
      var t := s.(buffer := s.buffer + [w[0]], cursor := |s.buffer| + 1);
      assert Typed(w)[0] == Press(Char(w[0]), None) && Typed(w)[1..] == Typed(w[1..]);
      TypingAppends(t, w[1..]);
      assert s.buffer + [w[0]] + w[1..] == s.buffer + w;
    } else {
      assert s.buffer + w == s.buffer;
    }
  }

  /** The events that type `w` and press Enter. */
  function Line(w: string, cwd: Option<string>): seq<Event> {
    Typed(w) + [Press(Enter, cwd)]
  }

  /**
    Typing a command with no surrounding whitespace on a fresh line and
    pressing Enter, while the process runs: the command is recorded, the
    index moves past it, and exactly the command and a newline are written.
   */
  lemma SubmitTyped(s: State, w: string, cwd: Option<string>) returns (r: State)
    requires Wf(s) && s.running && s.cursor == |s.buffer| && s.boundary == |s.buffer|
    requires w != "" && Trimmed(w)
    ensures r == Run(s, Line(w, cwd))
    ensures r.history == s.history + [w] && r.index == |r.history|
    ensures r.writes == s.writes + [w + "\n"]
    ensures r.buffer == s.buffer + w + "\n"
    ensures r.cursor == |r.buffer| && r.boundary == |r.buffer| && r.running
  {
    TypingAppends(s, w);
    var t := Run(s, Typed(w));
    RunSnoc(s, Typed(w), Press(Enter, cwd));
    assert Pending(t) == w;
    StripTrimmed(w);
    StepEnter(t, cwd);
    r := Submit(t, cwd);
    assert r.buffer == t.buffer + "\n";
    assert t.buffer + "\n" == s.buffer + w + "\n";
  }

  /** Submitting two lines in a row records both, in order. */
  lemma SubmitTwo(s: State, w1: string, w2: string) returns (r: State)
    requires Wf(s) && s.running && s.cursor == |s.buffer| && s.boundary == |s.buffer|
    requires w1 != "" && Trimmed(w1) && w2 != "" && Trimmed(w2)
    ensures r == Run(Run(s, Line(w1, None)), Line(w2, None))
    ensures r.history == s.history + [w1, w2] && r.index == |r.history|
    ensures r.writes == s.writes + [w1 + "\n", w2 + "\n"]
    ensures r.running && r.cursor == |r.buffer| && r.boundary == |r.buffer|
  {
    var t := SubmitTyped(s, w1, None);
    r := SubmitTyped(t, w2, None);
    SnocTwice(s.history, w1, w2);
    SnocTwice(s.writes, w1 + "\n", w2 + "\n");
  }

  lemma FromEmpty<T>(a: T, b: T, c: T)
    ensures [] + [a, b] + [c] == [a, b, c]
  {
  }

  lemma SnocTwice<T>(p: seq<T>, a: T, b: T)
    ensures p + [a] + [b] == p + [a, b]
  {
  }

  /** The shell has started on the freshly constructed panel: a prompt and an empty line. */
  lemma StartedReady(cwd: Option<string>) returns (s0: State)
    ensures s0 == Run(Initial, [Started(cwd)]) && Wf(s0)
    ensures s0.running && s0.cursor == |s0.buffer| && s0.boundary == |s0.buffer|
    ensures s0.history == [] && s0.index == 0 && s0.writes == []
  {
    RunSnoc(Initial, [], Started(cwd));
    assert [] + [Started(cwd)] == [Started(cwd)];
    assert Run(Initial, []) == Initial;
    s0 := OnProcessStarted(Initial, cwd);
  }

  /**
    Starting the shell on a fresh panel and submitting three commands:
    the history holds them in order, the index is past the end, and exactly
    the three command lines were written to the process.
   */
  lemma ThreeSubmitted(cwd: Option<string>, c1: string, c2: string, c3: string) returns (ready: State)
    requires c1 != "" && Trimmed(c1) && c2 != "" && Trimmed(c2) && c3 != "" && Trimmed(c3)
    ensures ready == Run(Run(Run(Run(Initial, [Started(cwd)]), Line(c1, None)), Line(c2, None)), Line(c3, None))
    ensures Wf(ready) && ready.history == [c1, c2, c3] && ready.index == 3
    ensures ready.writes == [c1 + "\n", c2 + "\n", c3 + "\n"]
    ensures Pending(ready) == ""
  {
    var s0 := StartedReady(cwd);
    var s2 := SubmitTwo(s0, c1, c2);
    ready := SubmitTyped(s2, c3, None);
    FromEmpty(c1, c2, c3);
    FromEmpty(c1 + "\n", c2 + "\n", c3 + "\n");
  }

  /**
    The example session: the shell starts, then `ls`, `cd foo` and `echo hi`
    are typed and submitted. It reaches that history, with the index past
    the end.
   */
  lemma ExampleSessionHistory(cwd: Option<string>) returns (ready: State)
    ensures ready == Run(Run(Run(Run(Initial, [Started(cwd)]), Line("ls", None)), Line("cd foo", None)), Line("echo hi", None))
    ensures Wf(ready) && ready.history == ["ls", "cd foo", "echo hi"] && ready.index == 3
    ensures ready.writes == ["ls\n", "cd foo\n", "echo hi\n"]
  {
    ExampleCommands();
    ready := ThreeSubmitted(cwd, "ls", "cd foo", "echo hi");
  }

  /** The example commands have no surrounding whitespace, and their lines end in a newline. */
  lemma ExampleCommands()
    ensures Trimmed("ls") && Trimmed("cd foo") && Trimmed("echo hi")
    ensures "ls" + "\n" == "ls\n" && "cd foo" + "\n" == "cd foo\n" && "echo hi" + "\n" == "echo hi\n"
  {
  }

  /**
    Browsing that history: three Ups show `echo hi`, `cd foo`, `ls`; a
    fourth Up changes nothing; then Down shows `cd foo`, `echo hi`, an empty
    line, and stays on the empty line.
   */
  lemma HistoryWalk(ready: State)
    requires Wf(ready)
    requires ready.history == ["ls", "cd foo", "echo hi"] && ready.index == 3
    ensures var u1 := HandleKey(ready, Up, None);
      var u2 := HandleKey(u1, Up, None);
      var u3 := HandleKey(u2, Up, None);
      var u4 := HandleKey(u3, Up, None);
      && Pending(u1) == "echo hi" && Pending(u2) == "cd foo" && Pending(u3) == "ls"
      && u4 == u3
    ensures var top := HandleKey(HandleKey(HandleKey(ready, Up, None), Up, None), Up, None);
      var d1 := HandleKey(top, Down, None);
      var d2 := HandleKey(d1, Down, None);
      var d3 := HandleKey(d2, Down, None);
      var d4 := HandleKey(d3, Down, None);
      && Pending(d1) == "cd foo" && Pending(d2) == "echo hi" && Pending(d3) == "" && Pending(d4) == ""
      && d3.index == 3 && d4.index == 3
  {
    var u1 := HandleKey(ready, Up, None);
    var u2 := HandleKey(u1, Up, None);
    var u3 := HandleKey(u2, Up, None);
    assert u1.index == 2 && u2.index == 1 && u3.index == 0;
    assert Snap(u3) == u3;
  }
}
