/** The update engine (internal/tui/update.go): one transition per message.
    Each transition is defined once as a function on `Session.State` and
    carried out by a method on `Session.Model` proved to agree with it. */
module Update {
  import opened Wrappers
  import opened Commands
  import Config
  import opened Session
  import opened Ints

  /** Key names as the terminal layer reports them, closed into the cases
      the engine distinguishes. `Rune(c)` is a key whose name is the single
      character `c` ("e", "j", "k", " ", "A", ...); `Unbound` is any other
      key whose name is longer than one character ("enter", "tab", "left",
      "ctrl+a", ...). */
  datatype Key =
    | CtrlQ | Esc | CtrlC | Up | Down | Backspace
    | Rune(c: char)
    | Unbound

  /** What the engine hands back to the runtime. */
  datatype Cmd = NoCmd | QuitCmd | TickCmd | ExecEditor(program: string, path: string)

  /** The outcome of reloading the data file: the (platform-filtered)
      catalog, or the parse error. */
  datatype LoadResult = Loaded(commands: seq<Command>) | LoadFailed(error: string)

  /** Incoming messages. `EditorClosed` is delivered once the external editor
      exits and carries the reload outcome. */
  datatype Msg =
    | WindowSize(width: int, height: int)
    | Tick
    | KeyPress(key: Key)
    | EditorClosed(result: LoadResult)
    | OtherMsg

  /** The outside world at the moment a message is handled: the clock, the
      outcome a clipboard write would have, and the EDITOR variable. */
  datatype Env = Env(now: Clock, clipboardWorks: bool, editorVar: string)

  /** The new state, the command for the runtime, and the lines written to
      standard output. */
  datatype Reply = Reply(next: State, cmd: Cmd, stdout: seq<string>)

  const CopiedMsg := "Copied!"
  const CopiedTtl := 2000
  const ClipboardFailMsg := "Clipboard not supported"
  const ClipboardFailTtl := 3000
  const DefaultEditor := "vim"

  /** A one-character key name the search box accepts: printable ASCII. */
  predicate IsPrintable(c: char) {
    32 <= c as int <= 126
  }

  /** Keys bound to an action in normal mode that are also one character. */
  predicate IsBoundRune(c: char) {
    c == 'e' || c == 'j' || c == 'k'
  }

  // ---------------------------------------------------------------------
  // Transitions as functions
  // ---------------------------------------------------------------------

  /** `updateFilter`: recompute the filtered list from the catalog and the
      query, and send the cursor back to 0 when it no longer fits. */
  function Refiltered(s: State): State {
    var f := Config.Filtered(s.allCommands, s.searchInput);
    s.(filteredCommands := f, cursor := if s.cursor >= |f| then 0 else s.cursor)
  }

  /** The command `openEditor` returns: EDITOR, or "vim" when it is empty,
      run on the data file. */
  function EditorCommand(editorVar: string, path: string): (r: Cmd)
    ensures r.ExecEditor? && r.path == path && r.program != ""
    ensures editorVar != "" ==> r.program == editorVar
    ensures editorVar == "" ==> r.program == DefaultEditor
  {
    ExecEditor(if editorVar == "" then DefaultEditor else editorVar, path)
  }

  /** `copyToClipboard`: nothing without a selection; otherwise a status
      telling whether the write worked, and on failure the command text on
      standard output. */
  function Copied(s: State, env: Env): Reply
    requires 0 <= s.cursor
  {
    if |s.filteredCommands| == 0 || s.cursor >= |s.filteredCommands| then
      Reply(s, NoCmd, [])
    else
      var text := s.filteredCommands[s.cursor].cmd;
      if env.clipboardWorks then
        Reply(WithStatus(s, CopiedMsg, CopiedTtl, env.now), NoCmd, [])
      else
        Reply(WithStatus(s, ClipboardFailMsg, ClipboardFailTtl, env.now), NoCmd, [text])
  }

  /** The reload after the editor closes: a parse failure switches to error
      mode and records the error; a success returns to normal mode with the
      new catalog, refiltered. */
  function Reloaded(s: State, result: LoadResult): State {
    match result
    case LoadFailed(e) => s.(mode := ErrorMode, parseError := Some(e))
    case Loaded(commands) => Refiltered(s.(mode := NormalMode, allCommands := commands))
  }

  /** `handleKeyPress`. */
  function HandleKey(s: State, key: Key, env: Env): Reply
    requires 0 <= s.cursor
  {
    if key == CtrlQ || key == Esc then
      Reply(s, QuitCmd, [])
    else if s.mode == ErrorMode then
      if key == Rune('e') then Reply(s, EditorCommand(env.editorVar, s.configPath), [])
      else Reply(s, NoCmd, [])
    else if key == CtrlC then
      Copied(s, env)
    else if key == Rune('e') then
      Reply(s, EditorCommand(env.editorVar, s.configPath), [])
    else if key == Up || key == Rune('k') then
      Reply(if s.cursor > 0 then s.(cursor := s.cursor - 1) else s, NoCmd, [])
    else if key == Down || key == Rune('j') then
      Reply(if s.cursor < |s.filteredCommands| - 1 then s.(cursor := s.cursor + 1) else s, NoCmd, [])
    else if key == Backspace then
      if |s.searchInput| > 0 then
        Reply(Refiltered(s.(searchInput := s.searchInput[..|s.searchInput| - 1])), NoCmd, [])
      else
        Reply(s, NoCmd, [])
    else if key.Rune? && IsPrintable(key.c) then
      Reply(Refiltered(s.(searchInput := s.searchInput + [key.c])), NoCmd, [])
    else
      Reply(s, NoCmd, [])
  }

  /** `Update`: dispatch on the message. */
  function Step(s: State, msg: Msg, env: Env): Reply
    requires 0 <= s.cursor
  {
    match msg
    case WindowSize(w, h) => Reply(s.(width := w, height := h), NoCmd, [])
    case Tick => Reply(ClearedIfExpired(s, env.now), TickCmd, [])
    case KeyPress(key) => HandleKey(s, key, env)
    case EditorClosed(result) => Reply(Reloaded(s, result), NoCmd, [])
    case OtherMsg => Reply(s, NoCmd, [])
  }

  // ---------------------------------------------------------------------
  // The session invariant
  // ---------------------------------------------------------------------

  /** Refiltering establishes the invariant from any non-negative cursor. */
  lemma RefilteredInv(s: State)
    requires 0 <= s.cursor
    requires s.mode == ErrorMode ==> s.parseError.Some?
    ensures Inv(Refiltered(s))
  {
  }

  /** Every message keeps the cursor in range of the filtered list, the
      filtered list equal to the filter of the catalog by the query, and an
      error available in error mode. */
  lemma StepPreservesInv(s: State, msg: Msg, env: Env)
    requires Inv(s)
    ensures Inv(Step(s, msg, env).next)
  {
  }

  /** An event: a message and the world it arrives in. */
  datatype Event = Event(msg: Msg, env: Env)

  /** The session after a sequence of events. */
  function Run(s: State, events: seq<Event>): State
    requires Inv(s)
    decreases |events|
  {
    if events == [] then s
    else
      var r := Step(s, events[0].msg, events[0].env);
      StepPreservesInv(s, events[0].msg, events[0].env);
      Run(r.next, events[1..])
  }

  /** After any sequence of events the invariant still holds. */
  lemma {:induction false} RunPreservesInv(s: State, events: seq<Event>)
    requires Inv(s)
    ensures Inv(Run(s, events))
    decreases |events|
  {
    if events != [] {
      StepPreservesInv(s, events[0].msg, events[0].env);
      RunPreservesInv(Step(s, events[0].msg, events[0].env).next, events[1..]);
    }
  }

  /** In particular every session started by `NewModel` keeps its cursor in
      range forever. */
  lemma SessionCursorAlwaysInRange(path: string, commands: seq<Command>, err: Option<string>, events: seq<Event>)
    ensures Inv(Initial(path, commands, err)) && CursorInRange(Run(Initial(path, commands, err), events))
  {
    InitialInv(path, commands, err);
    RunPreservesInv(Initial(path, commands, err), events);
  }

  // ---------------------------------------------------------------------
  // Properties of single transitions
  // ---------------------------------------------------------------------

  /** A resize records the new size and nothing else; a tick only clears an
      expired status, and always asks for the next tick. */
  lemma ResizeAndTick(s: State, w: int, h: int, env: Env)
    requires 0 <= s.cursor
    ensures var r := Step(s, WindowSize(w, h), env);
      r.next.width == w && r.next.height == h && r.cmd == NoCmd && r.stdout == [] &&
      r.next.(width := s.width, height := s.height) == s
    ensures var r := Step(s, Tick, env);
      r.cmd == TickCmd && r.stdout == [] && r.next == ClearedIfExpired(s, env.now)
  {
  }

  /** The quit keys end the session in every mode and change nothing. */
  lemma QuitKeys(s: State, key: Key, env: Env)
    requires 0 <= s.cursor
    requires key == CtrlQ || key == Esc
    ensures Step(s, KeyPress(key), env) == Reply(s, QuitCmd, [])
  {
  }

  /** In error mode every key except the quit keys and "e" is ignored, and
      "e" only asks for the editor. */
  lemma ErrorModeKeys(s: State, key: Key, env: Env)
    requires 0 <= s.cursor && s.mode == ErrorMode
    requires key != CtrlQ && key != Esc
    ensures var r := HandleKey(s, key, env);
      && r.next == s && r.stdout == []
      && (r.cmd == NoCmd <==> key != Rune('e'))
      && (key == Rune('e') ==> r.cmd == EditorCommand(env.editorVar, s.configPath))
  {
  }

  /** Up and "k" move the cursor one row up, stopping at the first row. */
  lemma MoveUp(s: State, key: Key, env: Env)
    requires 0 <= s.cursor && s.mode == NormalMode
    requires key == Up || key == Rune('k')
    ensures var r := HandleKey(s, key, env);
      r.next == s.(cursor := if s.cursor == 0 then 0 else s.cursor - 1) && r.cmd == NoCmd
  {
  }

  /** Down and "j" move the cursor one row down, stopping at the last row;
      there is no wrap-around. */
  lemma MoveDown(s: State, key: Key, env: Env)
    requires Inv(s) && s.mode == NormalMode
    requires key == Down || key == Rune('j')
    ensures var r := HandleKey(s, key, env);
      && r.cmd == NoCmd
      && r.next.(cursor := s.cursor) == s
      && (|s.filteredCommands| > 0 ==> r.next.cursor == Min(s.cursor + 1, |s.filteredCommands| - 1))
      && (|s.filteredCommands| == 0 ==> r.next.cursor == 0)
  {
  }

  /** The query changes only by a backspace that drops its last character or
      by a printable character that is not bound to an action, appended at
      the end; "e", "j" and "k" are never typed into it. Each such change
      refilters the catalog. */
  lemma QueryEdits(s: State, key: Key, env: Env)
    requires Inv(s)
    ensures var r := HandleKey(s, key, env);
      || r.next.searchInput == s.searchInput
      || (&& key == Backspace && |s.searchInput| > 0
          && r.next.searchInput + [s.searchInput[|s.searchInput| - 1]] == s.searchInput
          && r.next.filteredCommands == Config.Filtered(s.allCommands, r.next.searchInput))
      || (&& key.Rune? && IsPrintable(key.c) && !IsBoundRune(key.c)
          && r.next.searchInput == s.searchInput + [key.c]
          && r.next.filteredCommands == Config.Filtered(s.allCommands, r.next.searchInput))
  {
  }

  /** In normal mode a printable unbound character is appended to the query,
      backspace drops the query's last character (and does nothing on an
      empty query), each edit refiltering the catalog, and "e" asks for the
      editor without changing the session. */
  lemma TypingAndBackspace(s: State, c: char, env: Env)
    requires 0 <= s.cursor && s.mode == NormalMode
    ensures IsPrintable(c) && !IsBoundRune(c) ==>
      HandleKey(s, Rune(c), env).next == Refiltered(s.(searchInput := s.searchInput + [c]))
    ensures s.searchInput == "" ==> HandleKey(s, Backspace, env) == Reply(s, NoCmd, [])
    ensures |s.searchInput| > 0 ==>
      HandleKey(s, Backspace, env)
        == Reply(Refiltered(s.(searchInput := s.searchInput[..|s.searchInput| - 1])), NoCmd, [])
    ensures HandleKey(s, Rune('e'), env) == Reply(s, EditorCommand(env.editorVar, s.configPath), [])
  {
  }

  /** Refiltering keeps the cursor when it still indexes the new list and
      otherwise resets it to exactly 0, never to the last row. */
  lemma RefilterClamp(s: State)
    ensures var r := Refiltered(s);
      && (s.cursor < |r.filteredCommands| ==> r.cursor == s.cursor)
      && (s.cursor >= |r.filteredCommands| ==> r.cursor == 0)
      && r.(filteredCommands := s.filteredCommands, cursor := s.cursor) == s
  {
  }

  /** Copying: without a selection nothing happens; a working clipboard
      gives "Copied!" for 2 s; a failing one gives "Clipboard not supported"
      for 3 s and writes the selected command text to standard output. */
  lemma CopyOutcomes(s: State, env: Env)
    requires Inv(s) && s.mode == NormalMode
    ensures var r := HandleKey(s, CtrlC, env);
      && r.cmd == NoCmd
      && (|s.filteredCommands| == 0 ==> r == Reply(s, NoCmd, []))
      && (|s.filteredCommands| > 0 && env.clipboardWorks ==>
            r.next == WithStatus(s, CopiedMsg, 2000, env.now) && r.stdout == [])
      && (|s.filteredCommands| > 0 && !env.clipboardWorks ==>
            r.next == WithStatus(s, ClipboardFailMsg, 3000, env.now) &&
            r.stdout == [s.filteredCommands[s.cursor].cmd])
  {
  }

  /** The reload when the editor closes. Success: normal mode, the new
      catalog, the filter recomputed for the unchanged query, the cursor kept
      when it fits and otherwise reset to 0, every other field as it was.
      Failure: error mode with the new error; catalog, filtered list and
      cursor kept. */
  lemma ReloadOutcomes(s: State, result: LoadResult, env: Env)
    requires Inv(s)
    ensures var r := Step(s, EditorClosed(result), env).next;
      && Inv(r)
      && r.searchInput == s.searchInput && r.statusMsg == s.statusMsg
      && (result.Loaded? ==>
            && r.mode == NormalMode && r.allCommands == result.commands
            && r.filteredCommands == Config.Filtered(result.commands, s.searchInput)
            && (s.cursor < |r.filteredCommands| ==> r.cursor == s.cursor)
            && (s.cursor >= |r.filteredCommands| ==> r.cursor == 0)
            && r.(mode := s.mode, allCommands := s.allCommands,
                  filteredCommands := s.filteredCommands, cursor := s.cursor) == s)
      && (result.LoadFailed? ==>
            r == s.(mode := ErrorMode, parseError := Some(result.error)))
  {
  }

  /** A status shown for `duration` from `t` is still there at every tick up
      to and including its expiry, and is gone at the first tick after it;
      once it is gone, a tick at any time changes nothing more. */
  lemma StatusExpiresOnFirstLaterTick(s: State, msg: string, duration: nat, t: Clock, env: Env, env': Env)
    requires 0 <= s.cursor
    ensures var shown := WithStatus(s, msg, duration, t);
      var r := Step(shown, Tick, env).next;
      && (env.now <= t + duration ==> r == shown)
      && (env.now > t + duration ==>
            r.statusMsg == "" && r.statusExpiry == NoExpiry &&
            r == s.(statusMsg := "", statusExpiry := NoExpiry))
      && Step(r, Tick, env).next == r
      && (env.now > t + duration ==> Step(r, Tick, env').next == r)
  {
  }

  // ---------------------------------------------------------------------
  // The reload as written (update.go:112-124)
  // ---------------------------------------------------------------------

  /** The engine as written: the editor callback assigns to the copy of the
      session captured when the editor was opened and returns no message, so
      the running session never sees the reload. Every other message is
      handled as in `Step`. */
  function StepAsWritten(s: State, msg: Msg, env: Env): Reply
    requires 0 <= s.cursor
  {
    if msg.EditorClosed? then Reply(s, NoCmd, []) else Step(s, msg, env)
  }

  function RunAsWritten(s: State, events: seq<Event>): State
    requires Inv(s)
    decreases |events|
  {
    if events == [] then s
    else
      StepPreservesInv(s, events[0].msg, events[0].env);
      RunAsWritten(StepAsWritten(s, events[0].msg, events[0].env).next, events[1..])
  }

  /** As written, error mode can never be left: whatever the user types and
      however the data file is repaired, the session stays in error mode. */
  lemma {:induction false} ErrorModeIsStuckAsWritten(s: State, events: seq<Event>)
    requires Inv(s) && s.mode == ErrorMode
    ensures RunAsWritten(s, events).mode == ErrorMode
    decreases |events|
  {
    if events != [] {
      var e := events[0];
      StepPreservesInv(s, e.msg, e.env);
      var next := StepAsWritten(s, e.msg, e.env).next;
      assert next.mode == ErrorMode by {
        if e.msg.KeyPress? {
          ErrorModeKeysKeepMode(s, e.msg.key, e.env);
        }
      }
      ErrorModeIsStuckAsWritten(next, events[1..]);
    }
  }

  lemma ErrorModeKeysKeepMode(s: State, key: Key, env: Env)
    requires 0 <= s.cursor && s.mode == ErrorMode
    ensures HandleKey(s, key, env).next == s
  {
  }

  /** The intended reload: once the file parses again, closing the editor
      returns the session to normal mode with the new catalog. */
  lemma ReloadRecovers(s: State, commands: seq<Command>, env: Env)
    requires Inv(s) && s.mode == ErrorMode
    ensures var r := Step(s, EditorClosed(Loaded(commands)), env).next;
      r.mode == NormalMode && r.allCommands == commands && Inv(r)
    ensures StepAsWritten(s, EditorClosed(Loaded(commands)), env).next.mode == ErrorMode
  {
  }

  // ---------------------------------------------------------------------
  // The engine on the session record
  // ---------------------------------------------------------------------

  /** `updateFilter`. */
  method UpdateFilter(m: Model)
    modifies m
    ensures m.Snapshot() == Refiltered(old(m.Snapshot()))
  {
    var f := Config.FilterCommands(m.allCommands, m.searchInput);
    Config.FilteredIsSelection(m.allCommands, m.searchInput);
    m.filteredCommands := f;
    if m.cursor >= |f| {
      m.cursor := 0;
    }
  }

  /** `copyToClipboard`, with the clipboard write's outcome given. */
  method CopyToClipboard(m: Model, env: Env) returns (stdout: seq<string>)
    requires 0 <= m.cursor
    modifies m
    ensures Reply(m.Snapshot(), NoCmd, stdout) == Copied(old(m.Snapshot()), env)
  {
    if |m.filteredCommands| == 0 || m.cursor >= |m.filteredCommands| {
      return [];
    }
    var text := m.filteredCommands[m.cursor].cmd;
    if !env.clipboardWorks {
      m.SetStatus(ClipboardFailMsg, ClipboardFailTtl, env.now);
      stdout := [text];
    } else {
      m.SetStatus(CopiedMsg, CopiedTtl, env.now);
      stdout := [];
    }
  }

  /** The editor callback's reload, applied to the running session. */
  method ReloadAfterEditor(m: Model, result: LoadResult)
    modifies m
    ensures m.Snapshot() == Reloaded(old(m.Snapshot()), result)
  {
    match result {
      case LoadFailed(e) =>
        m.mode := ErrorMode;
        m.parseError := Some(e);
      case Loaded(commands) =>
        m.mode := NormalMode;
        m.allCommands := commands;
        UpdateFilter(m);
    }
  }

  /** `handleKeyPress`. */
  method HandleKeyPress(m: Model, key: Key, env: Env) returns (cmd: Cmd, stdout: seq<string>)
    requires 0 <= m.cursor
    modifies m
    ensures Reply(m.Snapshot(), cmd, stdout) == HandleKey(old(m.Snapshot()), key, env)
  {
    stdout := [];
    if key == CtrlQ || key == Esc {
      return QuitCmd, [];
    }
    if m.mode == ErrorMode {
      if key == Rune('e') {
        return EditorCommand(env.editorVar, m.configPath), [];
      }
      return NoCmd, [];
    }
    cmd := NoCmd;
    if key == CtrlC {
      stdout := CopyToClipboard(m, env);
    } else if key == Rune('e') {
      cmd := EditorCommand(env.editorVar, m.configPath);
    } else if key == Up || key == Rune('k') {
      if m.cursor > 0 {
        m.cursor := m.cursor - 1;
      }
    } else if key == Down || key == Rune('j') {
      if m.cursor < |m.filteredCommands| - 1 {
        m.cursor := m.cursor + 1;
      }
    } else if key == Backspace {
      if |m.searchInput| > 0 {
        m.searchInput := m.searchInput[..|m.searchInput| - 1];
        UpdateFilter(m);
      }
    } else if key.Rune? && IsPrintable(key.c) {
      m.searchInput := m.searchInput + [key.c];
      UpdateFilter(m);
    }
  }

  /** `Update`: the session after one message, with the invariant kept. */
  method Update(m: Model, msg: Msg, env: Env) returns (cmd: Cmd, stdout: seq<string>)
    requires 0 <= m.cursor
    modifies m
    ensures Reply(m.Snapshot(), cmd, stdout) == Step(old(m.Snapshot()), msg, env)
    ensures old(m.Valid()) ==> m.Valid()
  {
    ghost var before := m.Snapshot();
    match msg {
      case WindowSize(w, h) =>
        m.width := w;
        m.height := h;
        cmd, stdout := NoCmd, [];
      case Tick =>
        m.ClearStatusIfExpired(env.now);
        cmd, stdout := TickCmd, [];
      case KeyPress(key) =>
        cmd, stdout := HandleKeyPress(m, key, env);
      case EditorClosed(result) =>
        ReloadAfterEditor(m, result);
        cmd, stdout := NoCmd, [];
      case OtherMsg =>
        cmd, stdout := NoCmd, [];
    }
    if Inv(before) {
      StepPreservesInv(before, msg, env);
    }
  }
}
