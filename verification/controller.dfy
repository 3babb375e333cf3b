/**
 * The match session controller: the facade over the initializer, the
 * score engine and the undo engine, plus pause/resume and elapsed-time
 * ticking. The wall clock is the explicit parameter `now`, in milliseconds.
 */
module MatchController {
  import opened MatchTypes
  import opened Initialize
  import opened Scoring
  import opened Undo
  import opened MatchInvariants

  /** A new match; every state the controller produces from it stays consistent. */
  function Create(config: MatchConfig, now: int): (r: MatchState)
    ensures r == InitializeMatch(config, now)
    ensures Consistent(r)
    ensures r.config == config && r.startTime == now && r.history == []
  {
    InitializeIsConsistent(config, now);
    InitializeMatch(config, now)
  }

  /** Scores a point through the score engine, which keeps a consistent state consistent. */
  function ScorePoint(s: MatchState, winner: Side, id: string, now: int): (r: MatchState)
    requires Scorable(s, winner)
    ensures r == AddPoint(s, winner, id, now)
    ensures Consistent(s) ==> Consistent(r)
    ensures |r.history| == |s.history| + (if s.isMatchOver || s.isPaused then 0 else 1)
  {
    AddPointPreservesConsistent(s, winner, id, now);
    AddPoint(s, winner, id, now)
  }

  /** Undoes the last event through the undo engine, which keeps a consistent state consistent. */
  function UndoLast(s: MatchState): (r: MatchState)
    ensures r == UndoPoint(s)
    ensures Consistent(s) ==> Consistent(r)
    ensures |r.history| == if |s.history| == 0 then 0 else |s.history| - 1
  {
    UndoPreservesConsistent(s);
    UndoPoint(s)
  }

  /**
   * Pauses a running match or resumes a paused one; a finished match is
   * returned as it is. Resuming moves the start time to `now` minus the
   * elapsed duration, so that the clock carries on from where it stopped.
   */
  function TogglePause(s: MatchState, now: int): (r: MatchState)
    ensures s.isMatchOver ==> r == s
    ensures !s.isMatchOver ==> r.isPaused == !s.isPaused
    ensures !s.isMatchOver && !s.isPaused ==> r == s.(isPaused := true)
    ensures !s.isMatchOver && s.isPaused ==>
              r == s.(isPaused := false, startTime := r.startTime)
              && now - r.startTime == s.durationSeconds * 1000
  {
    if s.isMatchOver then s
    else if s.isPaused then s.(isPaused := false, startTime := now - s.durationSeconds * 1000)
    else s.(isPaused := true)
  }

  /**
   * Recomputes the elapsed whole seconds since the start time, never
   * below zero; a paused or finished match is returned as it is.
   */
  function Tick(s: MatchState, now: int): (r: MatchState)
    ensures s.isPaused || s.isMatchOver ==> r == s
    ensures !(s.isPaused || s.isMatchOver) ==>
              && r == s.(durationSeconds := r.durationSeconds)
              && r.durationSeconds >= 0
              && (now - s.startTime >= 0 ==>
                    r.durationSeconds * 1000 <= now - s.startTime < (r.durationSeconds + 1) * 1000)
              && (now - s.startTime < 1000 ==> r.durationSeconds == 0)
  {
    if s.isPaused || s.isMatchOver then s
    else
      var elapsed := (now - s.startTime) / 1000;
      s.(durationSeconds := if elapsed > 0 then elapsed else 0)
  }

  /**
   * Resuming and ticking at the same instant leaves the elapsed time where
   * it was when the match was paused (a negative duration reads as zero).
   */
  lemma ResumeKeepsElapsedTime(s: MatchState, now: int)
    requires s.isPaused && !s.isMatchOver
    ensures Tick(TogglePause(s, now), now).durationSeconds == if s.durationSeconds >= 0 then s.durationSeconds else 0
  {
    var resumed := TogglePause(s, now);
    assert now - resumed.startTime == s.durationSeconds * 1000;
    assert (s.durationSeconds * 1000) / 1000 == s.durationSeconds;
  }

  /** While a match runs, a later tick never shows less elapsed time. */
  lemma TickIsMonotonic(s: MatchState, earlier: int, later: int)
    requires earlier <= later
    ensures Tick(s, earlier).durationSeconds <= Tick(s, later).durationSeconds
  {
    if !(s.isPaused || s.isMatchOver) {
      var a := (earlier - s.startTime) / 1000;
      var b := (later - s.startTime) / 1000;
      assert a * 1000 <= earlier - s.startTime <= later - s.startTime < (b + 1) * 1000;
    }
  }

  /** One request to the controller. */
  datatype Command =
    | ScorePointCommand(winner: Side, id: string, at: int)
    | UndoCommand
    | TogglePauseCommand(at: int)
    | TickCommand(at: int)

  /** Carries out one command on a consistent state. */
  function Apply(s: MatchState, command: Command): (r: MatchState)
    requires Consistent(s)
    ensures Consistent(r)
  {
    match command
    case ScorePointCommand(winner, id, at) =>
      WellFormedIsScorable(s, winner);
      ScorePoint(s, winner, id, at)
    case UndoCommand => UndoLast(s)
    case TogglePauseCommand(at) => TogglePause(s, at)
    case TickCommand(at) => Tick(s, at)
  }

  /**
   * Carries out a sequence of commands. Starting from a consistent state
   * (any match the controller created), every state reached is consistent.
   */
  function Replay(s: MatchState, commands: seq<Command>): (r: MatchState)
    requires Consistent(s)
    ensures Consistent(r)
    ensures WellFormed(r) && |r.sets| == r.currentSetIndex + 1
    decreases |commands|
  {
    if |commands| == 0 then s
    else Replay(Apply(s, commands[0]), commands[1..])
  }
}
