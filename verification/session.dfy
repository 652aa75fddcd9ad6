/**
  A terminal session as a sequence of events arriving on the single UI
  thread: key presses, mouse clicks that place the cursor, output and
  lifecycle notifications from the shell process, and the calls other parts
  of the application make (execute a command, clear the panel). The
  properties here hold for every interleaving of these events.
 */
module Session {
  import opened Terminal
  import opened Keys

  datatype Event =
    | Press(key: Key, cwd: Option<string>)  // cwd: what os.getcwd() returns if Enter re-prompts
    | Click(pos: nat)                        // the user places the cursor with the mouse
    | Output(text: string)                   // decoded output of the process
    | Started(cwd: Option<string>)
    | Finished
    | SpawnFailed(message: string)
    | Execute(command: string, cwd: Option<string>)
    | Clear(cwd: Option<string>)

  /** A click places the cursor anywhere in the text, the protected part included. */
  function PlaceCursor(s: State, pos: nat): (r: State)
    requires Wf(s)
    ensures Wf(r) && SameSession(s, r)
    ensures r.buffer == s.buffer && r.boundary == s.boundary
    ensures r.cursor == (if pos <= |s.buffer| then pos else |s.buffer|)
  {
    s.(cursor := if pos <= |s.buffer| then pos else |s.buffer|)
  }

  /** The protected text of `s` is still there, at the start of the protected text of `r`. */
  ghost predicate KeepsProtectedPrefix(s: State, r: State)
    requires Wf(s) && Wf(r)
  {
    s.boundary <= r.boundary && r.buffer[..s.boundary] == Protected(s)
  }

  /** The history of `r` is that of `s` with zero or more commands added at the end. */
  ghost predicate HistoryExtends(s: State, r: State) {
    |s.history| <= |r.history| && r.history[..|s.history|] == s.history
  }

  /** One event. Whatever it is, the invariant is kept and the history is only ever extended. */
  function Step(s: State, e: Event): (r: State)
    requires Wf(s)
    ensures Wf(r)
    ensures HistoryExtends(s, r)
  {
    match e
    case Press(key, cwd) => HandleKey(s, key, cwd)
    case Click(pos) => PlaceCursor(s, pos)
    case Output(text) => OnReadyRead(s, text)
    case Started(cwd) => OnProcessStarted(s, cwd)
    case Finished => OnProcessFinished(s)
    case SpawnFailed(message) => OnSpawnError(s, message)
    case Execute(command, cwd) => ExecuteCommand(s, command, cwd)
    case Clear(cwd) => ClearTerminal(s, cwd)
  }

  /** Every event but Clear keeps the protected text, and the boundary never moves back. */
  lemma StepKeepsProtectedPrefix(s: State, e: Event)
    requires Wf(s) && !e.Clear?
    ensures KeepsProtectedPrefix(s, Step(s, e))
  {
    match e
    case Press(key, cwd) =>
      var r := HandleKey(s, key, cwd);
      if key == Enter {
        assert r.buffer[..s.boundary] == r.buffer[..|s.buffer|][..s.boundary];
      }
    case Click(pos) =>
    case Output(text) =>
    case Started(cwd) =>
      var r := OnProcessStarted(s, cwd);
      assert r.buffer[..|s.buffer|] == s.buffer;
      PrefixKeepsProtected(s, r);
    case Finished =>
      PrefixKeepsProtected(s, OnProcessFinished(s));
    case SpawnFailed(message) =>
      var r := OnSpawnError(s, message);
      assert r.buffer[..|s.buffer|] == s.buffer;
      PrefixKeepsProtected(s, r);
    case Execute(command, cwd) =>
      var r := ExecuteCommand(s, command, cwd);
      if command == "" || !s.running {
        PrefixKeepsProtected(s, r);
      }
  }

  /** Appending to the display keeps the protected text when the boundary moves to the end. */
  lemma PrefixKeepsProtected(s: State, r: State)
    requires Wf(s) && Wf(r)
    requires |s.buffer| <= |r.buffer| && r.buffer[..|s.buffer|] == s.buffer && r.boundary == |r.buffer|
    ensures KeepsProtectedPrefix(s, r)
  {
    assert r.buffer[..s.boundary] == r.buffer[..|s.buffer|][..s.boundary];
  }

  /**
    A whole session from `s`. The invariant holds throughout, in particular
    the history index stays in [0, |history|], and the history is only ever
    extended.
   */
  function Run(s: State, events: seq<Event>): (r: State)
    requires Wf(s)
    ensures Wf(r)
    ensures 0 <= r.index <= |r.history|
    ensures HistoryExtends(s, r)
    decreases |events|
  {
    if events == [] then s else Run(Step(s, events[0]), events[1..])
  }

  lemma {:induction false} RunAppend(s: State, a: seq<Event>, b: seq<Event>)
    requires Wf(s)
    ensures Run(s, a + b) == Run(Run(s, a), b)
    decreases |a|
  {
    if a != [] {
      assert (a + b)[0] == a[0] && (a + b)[1..] == a[1..] + b;
      RunAppend(Step(s, a[0]), a[1..], b);
    } else {
      assert a + b == b;
    }
  }

  /** The freshly constructed panel satisfies the invariant. */
  lemma InitialWf()
    ensures Wf(Initial)
    ensures Initial.index == 0 && Initial.history == []
  {
  }

  /**
    Without a Clear, nothing a session does ever removes or edits text that
    has once been placed before the boundary: the boundary only moves forward.
   */
  lemma {:induction false} ProtectedTextSurvives(s: State, events: seq<Event>)
    requires Wf(s)
    requires forall i :: 0 <= i < |events| ==> !events[i].Clear?
    ensures s.boundary <= Run(s, events).boundary
    ensures Run(s, events).buffer[..s.boundary] == Protected(s)
    decreases |events|
  {
    if events != [] {
      var t := Step(s, events[0]);
      StepKeepsProtectedPrefix(s, events[0]);
      ProtectedTextSurvives(t, events[1..]);
      var r := Run(t, events[1..]);
      assert r.buffer[..s.boundary] == r.buffer[..t.boundary][..s.boundary];
    }
  }

  /** After each event that shows text, the boundary sits at the very end of the buffer. */
  lemma AppendAnchorsBoundary(s: State, e: Event)
    requires Wf(s)
    requires
      || (e.Output? && e.text != "") || e.Started? || e.Finished? || e.SpawnFailed? || e.Clear?
      || (e.Press? && e.key == Enter)
    ensures Step(s, e).boundary == |Step(s, e).buffer|
    ensures Step(s, e).cursor == |Step(s, e).buffer|
  {
  }
}
