# Terminal panel line discipline, in Dafny

This project models the interactive terminal panel of a small PyQt IDE
(`TerminalWindow.py`). The panel shows the output of a child shell in an
editable text widget. It lets the user type one command line after the
last prompt, and it forwards submitted lines to the shell.

Without the widget and the process, what remains is a deterministic state
machine over one record, `Terminal.State`:

- `buffer`: the panel's plain text.
- `cursor`: the widget's text cursor.
- `boundary`: `current_command_start`, where the editable line begins.
- `history`: `command_history`.
- `index`: `history_index`.
- `running`: whether the shell process is in the Running state.
- `writes`: the list of strings written to the process.

Every operation is a pure function on that record:

- `terminal.dfy` (module `Terminal`): the state, `appendText`,
  `updatePrompt`, `executeCommand`, `clearTerminal` and the three process
  notifications.
- `keys.dfy` (module `Keys`): the key event filter. It covers the cursor
  snap, Enter, Up, Down, Backspace, Left and Home. It also covers the few
  pieces of the widget's default editing that the guards interact with.
- `text.dfy` (module `Text`): Python's `str.strip()`, which turns the
  pending line into a command.
- `session.dfy` (module `Session`): sessions as arbitrary interleavings of
  events, and the invariants that hold across them.
- `scenarios.dfy` (module `Scenarios`): typing and submitting lines, and the
  history walk over `ls`, `cd foo`, `echo hi`.
- `widget_insert.dfy` (module `WidgetInsert`): where appended text really lands
  (see Findings).

Parameters stand in for the environment:

- The working directory that `os.getcwd()` would return is an
  `Option<string>`. `None` means the call raised, and the fallback prompt
  `PS> ` is used.
- Process output arrives already decoded, with line breaks as the widget
  stores them, as the text of an `Output` event.
- The process's Running state is the `running` flag. The started and
  finished notifications set and clear it.

`Terminal.Wf` is the invariant of every reachable state:

- the cursor and the boundary lie inside the buffer;
- `0 <= index <= |history|`;
- no empty command is ever recorded;
- every string written to the process is a recorded command followed by
  `"\n"`.

## Model

| member | source | states |
|---|---|---|
| `Terminal.AppendText` | TerminalWindow.py:92-100 | the old text is kept as a prefix and the new text follows it; the boundary and the cursor sit at the new end, so the pending line is empty; history, index, process state and writes are unchanged |
| `Terminal.PromptText` | TerminalWindow.py:107-113 | every prompt, with or without a readable working directory, starts with `PS` and ends with `> ` |
| `Terminal.UpdatePrompt` | TerminalWindow.py:102-114 | the prompt for the given directory (or `PS> ` when it cannot be read) is shown, and a fresh empty command line opens after it |
| `Terminal.ExecuteCommand` | TerminalWindow.py:116-132 | an empty command only re-prompts and records and writes nothing; any other command is appended to the history with the index set to the new length; it is written with a trailing newline if the process runs, and otherwise the not-running error is shown and nothing is written |
| `Terminal.ClearTerminal` | TerminalWindow.py:213-218 | the display becomes exactly a fresh prompt with an empty line after it; history, index and process are kept |
| `Terminal.OnReadyRead` | TerminalWindow.py:81-90 | empty output changes nothing; other output is appended and re-anchors the boundary at the end |
| `Terminal.OnProcessStarted` | TerminalWindow.py:68-73 | afterwards the process runs, and the banner followed by a prompt is shown with the line open after it |
| `Terminal.OnProcessFinished` | TerminalWindow.py:75-79 | afterwards the process does not run, and the finished notice is shown |
| `Terminal.OnSpawnError` | TerminalWindow.py:65-66 | a spawn failure is shown as text; nothing else changes |
| `Keys.Snap` | TerminalWindow.py:139-144 | a key press with the cursor before the boundary first moves it to the end of the buffer; a cursor at or after the boundary stays put |
| `Keys.Submit` | TerminalWindow.py:147-158 | the old text plus a newline is a prefix of the result; a whitespace-only line records and writes nothing and only re-prompts; otherwise exactly `strip` of the pending line is recorded and, if the process runs, written with a newline |
| `Keys.HistoryUp` | TerminalWindow.py:161-170 | at index 0, or with an empty history, nothing changes; otherwise the index moves back by one and the pending line is exactly the command at the new index; the protected text and the boundary never change |
| `Keys.HistoryDown` | TerminalWindow.py:172-182 | the index moves forward by one unless it is already `\|history\|`; the pending line becomes the command at index+1, or is empty past the end, so the line is cleared even when the index does not move; the protected text is unchanged |
| `Keys.DeleteBack` | TerminalWindow.py:185-187 | with the cursor at or before the boundary neither buffer nor cursor changes; after it, exactly one character before the cursor is removed; the protected text is never edited |
| `Keys.MoveLeft` | TerminalWindow.py:190-192 | at or before the boundary the cursor does not move; after it the cursor moves one left and never below the boundary |
| `Keys.MoveHome` | TerminalWindow.py:193-196 | the cursor lands exactly on the boundary |
| `Keys.MoveRight` | TerminalWindow.py:198 | a key the filter passes on: the cursor moves one right and stays put only at the end of the buffer |
| `Keys.InsertChar` | TerminalWindow.py:198 | a typed character, passed on to the widget, lands at the cursor, which the snap has placed at or after the boundary; the protected text is unchanged |
| `Keys.BackspaceAfterSnap` | TerminalWindow.py:142-198 | Backspace with the cursor inside the protected text is first snapped to the end, so it deletes the last character of a non-empty pending line |
| `Keys.HandleKey` | TerminalWindow.py:134-198 | for the keys the model has, after the key press the cursor is at or after the boundary; every key but Enter keeps the boundary, the protected text, the history and the writes; Enter only appends to the display |
| `Session.PlaceCursor` | TerminalWindow.py:141-144 | a mouse click can put the cursor anywhere in the text, including the protected part, which is the case the snap exists for |
| `Session.Step` | TerminalWindow.py:124-126 | every event keeps the invariant; the history is only ever extended, never rewritten |
| `Session.Run` | TerminalWindow.py:15-16 | across any sequence of events the invariant holds; in particular `0 <= index <= \|history\|`, and the history only grows |
| `Session.InitialWf` | TerminalWindow.py:14-17 | the freshly constructed panel satisfies the invariant, with empty history and index 0 |
| `Session.StepKeepsProtectedPrefix` | TerminalWindow.py:184-196 | with appended text going to the end of the buffer, no event other than Clear edits text before the boundary or moves the boundary back |
| `Session.ProtectedTextSurvives` | TerminalWindow.py:142-196 | with appended text going to the end of the buffer, over any session without Clear, the text that was before the boundary at the start is still at the start of the buffer, and the boundary has not moved back |
| `Session.AppendAnchorsBoundary` | TerminalWindow.py:98-100 | after output, a lifecycle notice, Clear or Enter, the boundary and the cursor are at the end of the buffer |
| `Scenarios.TypingAppends` | TerminalWindow.py:198 | typing at the end of the line appends exactly the typed text and changes nothing else |
| `Scenarios.SubmitTyped` | TerminalWindow.py:147-158 | typing a command with no surrounding whitespace on a fresh line and pressing Enter, with the process running, records it once, sets the index to the new length, and writes exactly the command and `"\n"` |
| `Scenarios.SubmitTwo` | TerminalWindow.py:124-130 | two lines submitted in a row are recorded and written in order |
| `Scenarios.StartedReady` | TerminalWindow.py:68-73 | once the shell has started on a new panel, it runs, with an empty history and an empty line open after the prompt |
| `Scenarios.ThreeSubmitted` | TerminalWindow.py:116-158 | starting the shell and submitting three commands leaves exactly those three in the history, in order, with the index at 3 and exactly their three lines written |
| `Scenarios.ExampleSessionHistory` | TerminalWindow.py:125-126 | the session that starts the shell and then types and submits `ls`, `cd foo` and `echo hi` reaches history `["ls", "cd foo", "echo hi"]` with index 3 |
| `Scenarios.HistoryWalk` | TerminalWindow.py:161-182 | from that history at index 3, three Ups show `echo hi`, `cd foo`, `ls` and a fourth Up changes nothing; Down then shows `cd foo`, `echo hi`, an empty line, and an empty line again with the index staying at 3 |
| `Text.Strip` | TerminalWindow.py:151 | the stripped command starts and ends with a non-space, and it is empty exactly when the line is all whitespace |
| `Text.StripDecompose` | TerminalWindow.py:151 | every line is whitespace, then its stripped form, then whitespace |
| `Text.StripUnique` | TerminalWindow.py:151 | around a middle part with non-space ends, strip removes exactly the surrounding whitespace |
| `Text.StripIdempotent` | TerminalWindow.py:151 | stripping twice gives the same command as stripping once |
| `Text.StripTrimmed` | TerminalWindow.py:151 | a command with no surrounding whitespace is submitted unchanged |
| `WidgetInsert.AppendTextAtCursor` | TerminalWindow.py:96-100 | text appended through the widget goes in at the cursor, and the text after the cursor moves behind it; then the boundary and the cursor go to the end |
| `WidgetInsert.AgreesAtEnd` | TerminalWindow.py:96-98 | with the cursor at the end, inserting at the cursor is the same as appending at the end |
| `WidgetInsert.SubmitAsWritten` | TerminalWindow.py:147-157 | Enter as the code performs it still records `strip` of the pending line |
| `WidgetInsert.EnterMidLineSplitsLine` | TerminalWindow.py:149-154 | after typing `ls` and pressing Left, Enter as written executes `ls` but shows `PS> l`, a newline and `s`, and puts the `s` before the new boundary |
| `WidgetInsert.ClickThenOutputEditsProtected` | TerminalWindow.py:92-100 | a click inside the prompt followed by output, with no key press between, puts the output inside the protected text as written, while the corrected append leaves the protected text intact |
| `WidgetInsert.SubmitKeepsLine` | TerminalWindow.py:147-157 | with the corrected append, the pending line followed by the newline stays intact on the display after Enter, wherever the cursor was |

## Left out

- Process plumbing is left out: spawning `powershell.exe` or `bash`, merged
  channels, `stopProcess`, `terminate`, `waitForFinished(3000)` and `kill`.
  This is operating-system I/O and timing. The process is the `running`
  flag and the list of writes, and the started and finished notifications
  are events.
- The `if self.process` checks are left out. The process object always
  exists after construction unless the widget constructor itself fails.
- UTF-8 decoding of output (`errors='ignore'`, which drops malformed
  bytes) is a library call. Output arrives as already-decoded text.
- The widget's default editing is reduced to typing a character at the
  cursor, Backspace deleting one character, and Left and Right moving one
  step. Selections, paste, Delete, word motion, undo and
  `selectedText()`'s use of U+2029 for line breaks are left out.
- After Up or Down, the widget moves its own cursor along with the edit
  made through a second cursor. The model takes the widget cursor to end
  up at the end of the buffer.
- `Terminal.OnSpawnError` models the `except` branch of the process set-up.
  That branch runs only when a Python exception is raised there.
  `QProcess.start` reports a failure through a signal the panel does not
  connect, so the model does not cover that case.
- `updatePrompt`'s bare `except` also catches failures of the append
  itself. Only a failing `os.getcwd()` is modelled.
- Layout and fonts are UI only. The editing actions of the standard context
  menu (Cut, Paste, Delete, Undo) are left out. They edit at the cursor or
  the selection without a key press, so no snap runs before them. The
  menu's Clear Terminal action is modelled as the `Clear` event.
- `FileBrowser.py`, `OutputWindow.py`, `MainWindow.py` and `Edit.py` are
  not part of this model. They hold widget construction, file listing and
  a log panel.
- `Keys.HandleKey` covers Enter, Up, Down, Backspace, Left, Right, Home and
  typed characters. Every other key is taken to leave the modelled state
  alone. Motion the widget performs for PageUp, PageDown and word motion
  (Ctrl+Left) is left out, and so is word deletion (Ctrl+Backspace), which
  the filter treats as Backspace. That motion can leave the cursor inside the
  protected text after the key press, because the snap runs before the key
  is handled, not after it.
- `Session.StepKeepsProtectedPrefix` is stated for appends at the end of the
  buffer and for the editing the model has. As written, the protected text
  can be edited in ways the model does not cover, for example:
  - text appended after a click or a PageUp into the protected text lands
    at the cursor (see Findings);
  - a selection that starts inside the protected text, from Ctrl+A or a
    mouse drag, is replaced by a typed character or removed by Backspace,
    because the snap tests only the cursor and not the selection's anchor;
  - Ctrl+Backspace one space after the prompt passes the guard, which tests
    only the cursor, and the widget then deletes the previous word back
    into the prompt;
  - Ctrl+Z undoes the last append. Like Ctrl+Backspace, it removes
    protected text and can leave the boundary past the end of the buffer;
  - the context menu's Cut, Paste, Delete and Undo, text from an input
    method, drag-and-drop and middle-click paste all edit without a key
    press, so no snap runs before them.
- `Session.ProtectedTextSurvives` is stated for appends at the end of the
  buffer and for the editing the model has, for the same reasons. As
  written, each of the following can edit the protected text:
  - appending after a click or a PageUp;
  - replacing a selection that reaches into the protected text;
  - Ctrl+Backspace;
  - undo;
  - the context menu's editing actions;
  - input-method text;
  - drag-and-drop and middle-click paste.
- `Terminal.AppendText` appends the text unchanged. The widget's
  `insertPlainText` stores `"\r\n"` and a lone `"\r"` as one line break, so
  output with Windows line endings, as `powershell.exe` produces, is not
  stored character for character, and every offset after it shifts. The model's `Output` text stands for
  output after that line-break folding. No property of the line discipline
  depends on it, because the boundary is always read back from the end of
  the widget's own text.
- `WidgetInsert.SubmitAsWritten`: its contract states only the recorded
  command. The display it produces is shown on a concrete input by
  `WidgetInsert.EnterMidLineSplitsLine`.

Four behaviours of the code that a reader might not expect:

- Down always clears the pending line, even when the index is already past
  the end. It is not a no-op.
- Undecodable output bytes are dropped, not replaced.
- The line written to the process always ends in `"\n"`, on every platform.
- Backspace with the cursor before the boundary is not blocked. The snap
  moves the cursor to the end first, so Backspace deletes the last
  character of the pending line. Only a cursor exactly at the boundary
  leaves the text unchanged.

## Findings

| source | as written | input that shows it | evidently intended | confidence | as-written member | corrected member |
|---|---|---|---|---|---|---|
| TerminalWindow.py:96-100 | `insertPlainText` inserts at the widget's cursor. The boundary is then set to the end. So on Enter the newline goes wherever the cursor is inside the pending line. | Prompt `PS> `, type `ls`, press Left, press Enter. The display becomes `PS> l`, newline, `s`, and the `s` is now before the boundary, but `ls` is still executed. Also: at the prompt `PS> `, click between `PS` and `> `, then output `x` arrives. The display becomes `PSx> `, inside the protected text. The snap runs only at the start of a key press, so a click before the output, or a PageUp that the widget moves up a page, leaves the cursor there. | The newline and any other appended text go after the whole line, at the end of the buffer, which is where the boundary is re-anchored. | medium; not executed | `WidgetInsert.SubmitAsWritten` and `WidgetInsert.AppendTextAtCursor`, shown by `WidgetInsert.EnterMidLineSplitsLine` and `WidgetInsert.ClickThenOutputEditsProtected` | `Keys.Submit` and `Terminal.AppendText`, proved by `WidgetInsert.SubmitKeepsLine` and `Session.ProtectedTextSurvives` |
