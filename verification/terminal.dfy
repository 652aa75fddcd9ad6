/**
  The state of the terminal panel and the operations that write to it:
  appending text, printing the prompt, executing a command, clearing the
  panel, and the three notifications of the child shell process.

  The panel is one immutable record; every operation is a pure function from
  the old record to the new one. The text widget, the shell process and the
  operating system are not modelled as objects: the widget is its plain text
  and cursor, the process is a `running` flag and the list of lines written
  to it, and the working directory is passed in by the caller.
 */
module Terminal {

  datatype Option<T> = None | Some(value: T)

  datatype State = State(
    buffer: string,        // the plain text of the panel
    cursor: nat,           // the widget's text cursor, an offset into buffer
    boundary: nat,         // current_command_start: where the editable line begins
    history: seq<string>,  // command_history
    index: int,            // history_index
    running: bool,         // the shell process is in the Running state
    writes: seq<string>)   // every string written to the process, in order

  /** A line written to the process: a recorded command followed by a newline. */
  ghost predicate IsWriteOf(w: string, history: seq<string>) {
    |w| > 0 && w[|w| - 1] == '\n' && w[..|w| - 1] in history
  }

  /**
    The invariant every reachable state keeps: both offsets lie inside the
    buffer, the history index lies in [0, |history|], no empty command is ever
    recorded, and everything written to the process is a recorded command.
   */
  ghost predicate Wf(s: State) {
    && s.cursor <= |s.buffer|
    && s.boundary <= |s.buffer|
    && 0 <= s.index <= |s.history|
    && (forall i :: 0 <= i < |s.history| ==> s.history[i] != "")
    && (forall w :: w in s.writes ==> IsWriteOf(w, s.history))
  }

  /** The line the user is composing: everything from the boundary to the end. */
  function Pending(s: State): string
    requires s.boundary <= |s.buffer|
  {
    s.buffer[s.boundary..]
  }

  /** The text before the boundary, which key handling never edits. */
  function Protected(s: State): string
    requires s.boundary <= |s.buffer|
  {
    s.buffer[..s.boundary]
  }

  /** True when `r` differs from `s` at most in its display (buffer, cursor, boundary). */
  ghost predicate SameSession(s: State, r: State) {
    r.history == s.history && r.index == s.index && r.running == s.running && r.writes == s.writes
  }

  /** The panel as constructed: empty text, empty history, index 0, no process yet. */
  const Initial: State := State("", 0, 0, [], 0, false, [])

  const ConnectedBanner: string := "Terminal connected. PowerShell is ready.\n"
  const FinishedNotice: string := "\nTerminal process finished.\n"
  const NotRunningError: string := "Error: Terminal process is not running.\n"
  const SpawnErrorPrefix: string := "Error starting terminal process: "
  const FallbackPrompt: string := "PS> "

  /** The prompt for working directory `cwd`; `None` stands for a failing `os.getcwd()`. */
  function PromptText(cwd: Option<string>): (p: string)
    ensures |p| >= 4 && p[..2] == "PS" && p[|p| - 2..] == "> "
  {
    match cwd
    case Some(dir) => "PS " + dir + "> "
    case None => FallbackPrompt
  }

  /**
    appendText: the text goes after everything already shown, and the
    boundary and the cursor are re-anchored at the new end, so the pending
    line is empty afterwards.
   */
  function AppendText(s: State, text: string): (r: State)
    requires Wf(s)
    ensures Wf(r)
    ensures |r.buffer| == |s.buffer| + |text|
    ensures r.buffer[..|s.buffer|] == s.buffer && r.buffer[|s.buffer|..] == text
    ensures r.boundary == |r.buffer| && r.cursor == |r.buffer| && Pending(r) == ""
    ensures SameSession(s, r)
  {
    var b := s.buffer + text;
    s.(buffer := b, cursor := |b|, boundary := |b|)
  }

  /**
    updatePrompt: shows `PS <cwd>> `, or `PS> ` when the working directory
    cannot be read, and opens a fresh, empty command line after it.
   */
  function UpdatePrompt(s: State, cwd: Option<string>): (r: State)
    requires Wf(s)
    ensures Wf(r)
    ensures r.buffer == s.buffer + PromptText(cwd)
    ensures r.boundary == |r.buffer| && r.cursor == |r.buffer| && Pending(r) == ""
    ensures SameSession(s, r)
  {
    AppendText(s, PromptText(cwd))
  }

  /**
    executeCommand: an empty command only re-prompts. Any other command is
    recorded in the history, the index moves past the end of the history,
    and the command plus a newline is written to the process when it runs;
    when it does not, an error line is shown and nothing is written.
   */
  function ExecuteCommand(s: State, command: string, cwd: Option<string>): (r: State)
    requires Wf(s)
    ensures Wf(r)
    ensures r.running == s.running
    ensures command == "" ==> SameSession(s, r) && r == UpdatePrompt(s, cwd)
    ensures command != "" ==> r.history == s.history + [command] && r.index == |r.history|
    ensures command != "" && s.running ==>
      r.writes == s.writes + [command + "\n"]
      && r.buffer == s.buffer && r.cursor == s.cursor && r.boundary == s.boundary
    ensures command != "" && !s.running ==>
      r.writes == s.writes && r.buffer == s.buffer + NotRunningError && r.boundary == |r.buffer|
  {
    if command == "" then
      UpdatePrompt(s, cwd)
    else
      var h := s.history + [command];
      var recorded := s.(history := h, index := |h|);
      assert forall w :: w in s.writes ==> IsWriteOf(w, h);
      if s.running then
        var line := command + "\n";
        assert line[..|line| - 1] == command;
        recorded.(writes := s.writes + [line])
      else
        AppendText(recorded, NotRunningError)
  }

  /**
    clearTerminal: the display becomes a fresh prompt and nothing else;
    history, history index and the process are untouched.
   */
  function ClearTerminal(s: State, cwd: Option<string>): (r: State)
    requires Wf(s)
    ensures Wf(r)
    ensures r.buffer == PromptText(cwd)
    ensures Protected(r) == PromptText(cwd) && Pending(r) == "" && r.cursor == |r.buffer|
    ensures SameSession(s, r)
  {
    UpdatePrompt(s.(buffer := "", cursor := 0, boundary := 0), cwd)
  }

  /**
    onReadyRead, after decoding: non-empty output is appended (and so
    commits whatever was being typed); empty output changes nothing.
   */
  function OnReadyRead(s: State, output: string): (r: State)
    requires Wf(s)
    ensures Wf(r)
    ensures output == "" ==> r == s
    ensures output != "" ==>
      r.buffer == s.buffer + output && r.boundary == |r.buffer| && r.cursor == |r.buffer|
    ensures SameSession(s, r)
  {
    if output != "" then AppendText(s, output) else s
  }

  /** onProcessStarted: the process runs; the banner and then a prompt are shown. */
  function OnProcessStarted(s: State, cwd: Option<string>): (r: State)
    requires Wf(s)
    ensures Wf(r)
    ensures r.running
    ensures r.buffer == s.buffer + ConnectedBanner + PromptText(cwd)
    ensures r.boundary == |r.buffer| && r.cursor == |r.buffer|
    ensures r.history == s.history && r.index == s.index && r.writes == s.writes
  {
    UpdatePrompt(AppendText(s.(running := true), ConnectedBanner), cwd)
  }

  /** onProcessFinished: the process no longer runs; a notice is shown. */
  function OnProcessFinished(s: State): (r: State)
    requires Wf(s)
    ensures Wf(r)
    ensures !r.running
    ensures r.buffer == s.buffer + FinishedNotice && r.boundary == |r.buffer|
    ensures r.history == s.history && r.index == s.index && r.writes == s.writes
  {
    AppendText(s.(running := false), FinishedNotice)
  }

  /** The spawn failure branch of the process set-up: the error is shown, nothing runs. */
  function OnSpawnError(s: State, message: string): (r: State)
    requires Wf(s)
    ensures Wf(r)
    ensures r.buffer == s.buffer + SpawnErrorPrefix + message && r.boundary == |r.buffer|
    ensures SameSession(s, r)
  {
    AppendText(s, SpawnErrorPrefix + message)
  }
}
