/** Construction of a fresh match state from a rules configuration. */
module Initialize {
  import opened MatchTypes

  /** The score of a match before its first point: one 0-0 set, 0-0 games, "0"/"0". */
  const InitialScore := Snapshot([NoGames], NoGames, LadderZeros, false)

  /**
   * A fresh match: the configuration as given, started at `now`, not
   * paused, not over, with P1 serving and an empty history.
   */
  function InitializeMatch(config: MatchConfig, now: int): (s: MatchState)
    ensures s.config == config && s.startTime == now
    ensures s.durationSeconds == 0 && !s.isPaused && !s.isMatchOver
    ensures s.currentSetIndex == 0 && s.sets == [GameScore(0, 0)]
    ensures |s.sets| == s.currentSetIndex + 1
    ensures s.games == GameScore(0, 0) && s.points == PointScore(Zero, Zero)
    ensures !s.isTieBreak && !s.shouldSwitchSides && s.server == P1 && s.history == []
    ensures s.winner == None && s.matchId == None
    ensures s.Score() == InitialScore
  {
    MatchState(
      matchId := None,
      config := config,
      startTime := now,
      durationSeconds := 0,
      isPaused := false,
      isMatchOver := false,
      winner := None,
      currentSetIndex := 0,
      sets := [NoGames],
      games := NoGames,
      points := LadderZeros,
      isTieBreak := false,
      shouldSwitchSides := false,
      server := P1,
      history := []
    )
  }
}
