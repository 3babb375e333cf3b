/** The undo engine: reverting the most recent scoring event from the recorded snapshots. */
module Undo {
  import opened MatchTypes
  import opened Initialize

  /**
   * Removes the last history event. With no history the state is returned
   * as it is; removing the only event gives a fresh match for the same
   * configuration that keeps the start time and elapsed duration;
   * otherwise the score fields come back from the snapshot of the event
   * that is now last, the match is no longer over, and the configuration,
   * server, clock, pause flag and match id are kept.
   */
  function UndoPoint(s: MatchState): (r: MatchState)
    ensures |s.history| == 0 ==> r == s
    ensures |s.history| == 1 ==>
              && r.history == [] && r.Score() == InitialScore && r.currentSetIndex == 0
              && r.config == s.config && r.startTime == s.startTime && r.durationSeconds == s.durationSeconds
              && !r.isPaused && !r.isMatchOver && r.winner == None && r.matchId == None
              && r.server == P1 && !r.shouldSwitchSides
    ensures |s.history| >= 2 ==>
              && r.history == s.history[..|s.history| - 1]
              && r.Score() == s.history[|s.history| - 2].snapshot
              && r.currentSetIndex == (if |r.sets| == 0 then 0 else |r.sets| - 1)
              && !r.isMatchOver && r.winner == None
              && (r.shouldSwitchSides <==> s.history[|s.history| - 2].sideSwitchAfter == Some(true))
              && r.config == s.config && r.server == s.server
              && r.startTime == s.startTime && r.durationSeconds == s.durationSeconds
              && r.isPaused == s.isPaused && r.matchId == s.matchId
  {
    if |s.history| == 0 then s
    else
      var trimmed := s.history[..|s.history| - 1];
      if |trimmed| == 0 then
        InitializeMatch(s.config, s.startTime).(durationSeconds := s.durationSeconds)
      else
        var last := trimmed[|trimmed| - 1];
        var snapshot := last.snapshot;
        s.(
          history := trimmed,
          sets := snapshot.sets,
          games := snapshot.games,
          points := snapshot.points,
          isTieBreak := snapshot.isTieBreak,
          shouldSwitchSides := last.sideSwitchAfter == Some(true),
          isMatchOver := false,
          winner := None,
          currentSetIndex := if |snapshot.sets| - 1 > 0 then |snapshot.sets| - 1 else 0)
  }
}
