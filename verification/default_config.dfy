/** The rules configuration every new match starts from unless edited. */
module DefaultConfig {
  import opened MatchTypes
  import opened Scoring

  const DefaultMatchConfig := MatchConfig(
    p1Name := "Player 1",
    p2Name := "Player 2",
    p1Color := Some("blue"),
    p2Color := Some("red"),
    setsToWin := 2,
    useAdvantage := false,
    finalSetType := SuperTieBreak,
    tieBreakAt := 6,
    tieBreakPoints := 7,
    mode := Singles,
    p1PartnerName := None,
    p2PartnerName := None
  )

  /**
   * Under the default rules the third set (index 2) is the deciding one
   * and its tie-break is a super tie-break to 10; every other set's
   * tie-break goes to 7; and with no-ad scoring the point at deuce wins
   * the game.
   */
  lemma DefaultDecidesInASuperTieBreak(setIndex: nat, winner: Side)
    ensures IsDeciderSet(DefaultMatchConfig, setIndex) <==> setIndex == 2
    ensures TieBreakTarget(DefaultMatchConfig, setIndex) == (if setIndex == 2 then 10 else 7)
    ensures ResolveStandardPoint(PointScore(Forty, Forty), winner, DefaultMatchConfig.useAdvantage).gameWon
  {
  }
}
