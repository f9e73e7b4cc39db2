/** The session state record (internal/tui/model.go). */
module Session {
  import opened Wrappers
  import opened Commands
  import Config

  datatype ViewMode = NormalMode | ErrorMode

  /** A wall-clock reading in milliseconds. A real clock reading is never the
      zero time, which the model writes as 0. */
  type Clock = t: int | t > 0 witness 1

  /** The zero `time.Time`: "no status expiry". */
  const NoExpiry := 0

  /** A value snapshot of every field of the session record. */
  datatype State = State(
    configPath: string,
    allCommands: seq<Command>,
    filteredCommands: seq<Command>,
    cursor: int,
    searchInput: string,
    mode: ViewMode,
    parseError: Option<string>,
    statusMsg: string,
    statusExpiry: int,
    width: int,
    height: int)

  /** The cursor indexes the filtered list, or is 0 when that list is empty. */
  predicate CursorInRange(s: State) {
    if |s.filteredCommands| == 0 then s.cursor == 0 else 0 <= s.cursor < |s.filteredCommands|
  }

  /** The invariant every reachable session keeps: the cursor is in range, the
      filtered list is the filter of the catalog by the query, and error mode
      always has an error to show. */
  predicate Inv(s: State) {
    && CursorInRange(s)
    && s.filteredCommands == Config.Filtered(s.allCommands, s.searchInput)
    && (s.mode == ErrorMode ==> s.parseError.Some?)
  }

  /** The record `NewModel` builds: the catalog both as the whole and as the
      filtered list, an empty query, the cursor on the first row, zero
      status and size, and error mode exactly when a load error is given. */
  function Initial(configPath: string, commands: seq<Command>, err: Option<string>): State {
    State(configPath, commands, commands, 0, "",
          if err.Some? then ErrorMode else NormalMode, err,
          "", NoExpiry, 0, 0)
  }

  /** A fresh session satisfies the invariant, whatever the catalog. */
  lemma InitialInv(configPath: string, commands: seq<Command>, err: Option<string>)
    ensures Inv(Initial(configPath, commands, err))
  {
  }

  /** `SetStatus`: the message, expiring `duration` after `now`. */
  function WithStatus(s: State, msg: string, duration: int, now: Clock): (r: State)
    ensures r.statusMsg == msg && r.statusExpiry - now == duration
    ensures r.(statusMsg := s.statusMsg, statusExpiry := s.statusExpiry) == s
  {
    s.(statusMsg := msg, statusExpiry := now + duration)
  }

  /** The status has an expiry and `now` is strictly past it. */
  predicate StatusExpired(s: State, now: int) {
    s.statusExpiry != NoExpiry && now > s.statusExpiry
  }

  /** `ClearStatusIfExpired`. */
  function ClearedIfExpired(s: State, now: int): State {
    if StatusExpired(s, now) then s.(statusMsg := "", statusExpiry := NoExpiry) else s
  }

  /** Clearing empties the message and the expiry exactly when the status has
      expired, and touches no other field. */
  lemma ClearedIfExpiredEffect(s: State, now: int)
    ensures var r := ClearedIfExpired(s, now);
      && (r != s <==> StatusExpired(s, now))
      && (StatusExpired(s, now) ==> r.statusMsg == "" && r.statusExpiry == NoExpiry)
      && r.(statusMsg := s.statusMsg, statusExpiry := s.statusExpiry) == s
  {
  }

  /** At the expiry instant itself, or without an expiry, nothing changes. */
  lemma NotYetExpired(s: State, now: int)
    requires s.statusExpiry == NoExpiry || now <= s.statusExpiry
    ensures ClearedIfExpired(s, now) == s
  {
  }

  /** Clearing twice is clearing once, even at a later time. */
  lemma ClearedIfExpiredIdempotent(s: State, now: int, later: int)
    requires now <= later
    ensures ClearedIfExpired(ClearedIfExpired(s, now), now) == ClearedIfExpired(s, now)
    ensures ClearedIfExpired(ClearedIfExpired(s, later), now) == ClearedIfExpired(s, later)
  {
  }

  /** The session record, updated in place by the engine. */
  class Model {
    var configPath: string
    var allCommands: seq<Command>
    var filteredCommands: seq<Command>
    var cursor: int
    var searchInput: string
    var mode: ViewMode
    var parseError: Option<string>
    var statusMsg: string
    var statusExpiry: int
    var width: int
    var height: int

    /** The current value of every field. */
    function Snapshot(): State
      reads this
    {
      State(configPath, allCommands, filteredCommands, cursor, searchInput, mode,
            parseError, statusMsg, statusExpiry, width, height)
    }

    predicate Valid()
      reads this
    {
      Inv(Snapshot())
    }

    /** `NewModel`: builds the record in normal mode, then switches to error
        mode when a load error is given. */
    constructor NewModel(configPath: string, commands: seq<Command>, err: Option<string>)
      ensures Snapshot() == Initial(configPath, commands, err)
      ensures Valid()
    {
      this.configPath := configPath;
      allCommands := commands;
      filteredCommands := commands;
      cursor := 0;
      searchInput := "";
      mode := NormalMode;
      parseError := err;
      statusMsg := "";
      statusExpiry := NoExpiry;
      width := 0;
      height := 0;
      new;
      if err.Some? {
        mode := ErrorMode;
      }
      InitialInv(configPath, commands, err);
    }

    /** `SetStatus`: only the status message and its expiry change. */
    method SetStatus(msg: string, duration: int, now: Clock)
      modifies this
      ensures Snapshot() == WithStatus(old(Snapshot()), msg, duration, now)
      ensures statusMsg == msg && statusExpiry == now + duration
      ensures old(Valid()) ==> Valid()
    {
      statusMsg := msg;
      statusExpiry := now + duration;
    }

    /** `ClearStatusIfExpired`. */
    method ClearStatusIfExpired(now: int)
      modifies this
      ensures Snapshot() == ClearedIfExpired(old(Snapshot()), now)
      ensures old(Valid()) ==> Valid()
    {
      if statusExpiry != NoExpiry && now > statusExpiry {
        statusMsg := "";
        statusExpiry := NoExpiry;
      }
    }
  }
}
