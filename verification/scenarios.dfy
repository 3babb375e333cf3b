/**
 * The behaviour the project's example matches pin down, stated as
 * lemmas over every state set up as in those examples.
 */
module Scenarios {
  import opened MatchTypes
  import opened DefaultConfig
  import opened Scoring
  import opened AddPointLaws
  import opened LiveSync
  import opened FirebaseGateway

  /** Three points each from 0-0 reach 40-40 without a game being won. */
  lemma ThreePointsEachReachDeuce(useAdvantage: bool)
    ensures var a := ResolveStandardPoint(LadderZeros, P1, useAdvantage);
            var b := ResolveStandardPoint(a.points, P1, useAdvantage);
            var c := ResolveStandardPoint(b.points, P1, useAdvantage);
            var d := ResolveStandardPoint(c.points, P2, useAdvantage);
            var e := ResolveStandardPoint(d.points, P2, useAdvantage);
            var f := ResolveStandardPoint(e.points, P2, useAdvantage);
            && !a.gameWon && !b.gameWon && !c.gameWon && !d.gameWon && !e.gameWon && !f.gameWon
            && f.points == PointScore(Forty, Forty)
  {
  }

  /** Without advantage, the point at 40-40 wins the game: games go up by one and the points reset. */
  lemma NoAdDeuceScenario(s: MatchState, winner: Side, id: string, now: int)
    requires Active(s) && !s.isTieBreak && !s.config.useAdvantage && s.config.tieBreakAt == 6
    requires s.points == PointScore(Forty, Forty) && s.games == NoGames
    requires s.currentSetIndex <= |s.sets|
    ensures Scorable(s, winner)
    ensures var r := AddPoint(s, winner, id, now);
            && LastEvent(r).kind == GameWin
            && r.games == NoGames.With(winner, 1) && r.points == LadderZeros
  {
    EventKindOfPoint(s, winner, id, now);
    GameWinEffects(s, winner, id, now);
  }

  /** With advantage, the point at 40-40 gives "Ad", and the next point to the other side is deuce again. */
  lemma AdvantageScenario()
    ensures var ad := ResolveStandardPoint(PointScore(Forty, Forty), P1, true);
            var back := ResolveStandardPoint(ad.points, P2, true);
            && !ad.gameWon && ad.points == PointScore(Ad, Forty)
            && !back.gameWon && back.points == PointScore(Forty, Forty)
  {
  }

  /**
   * With tieBreakAt 2, the game that levels the set at 2-2 starts a
   * tie-break at numeric 0-0.
   */
  lemma TieBreakEntryScenario(s: MatchState, id: string, now: int)
    requires Active(s) && !s.isTieBreak && s.config.tieBreakAt == 2
    requires s.games == GameScore(2, 1) && s.points == PointScore(Zero, Forty)
    requires s.currentSetIndex <= |s.sets|
    ensures Scorable(s, P2)
    ensures var r := AddPoint(s, P2, id, now);
            && LastEvent(r).kind == GameWin
            && r.games == GameScore(2, 2) && r.isTieBreak && r.points == NumericZeros
  {
    EventKindOfPoint(s, P2, id, now);
    GameWinEffects(s, P2, id, now);
  }

  /**
   * In the default best-of-three, a super tie-break in the third set at
   * 9-8 is won, with the match, by the next point to the leader.
   */
  lemma SuperTieBreakScenario(s: MatchState, id: string, now: int)
    requires Active(s) && s.config == DefaultMatchConfig
    requires s.sets == [GameScore(6, 4), GameScore(4, 6), NoGames] && s.currentSetIndex == 2
    requires s.games == NoGames && s.isTieBreak && s.points == PointScore(Num(9), Num(8))
    ensures Scorable(s, P1)
    ensures var r := AddPoint(s, P1, id, now);
            LastEvent(r).kind == MatchWin && r.isMatchOver && r.winner == Some(P1)
  {
    var sets := FinalSets(s, P1);
    assert sets == [GameScore(6, 4), GameScore(4, 6), GameScore(1, 0)];
    var two := [GameScore(6, 4), GameScore(4, 6)];
    var one := [GameScore(6, 4)];
    assert sets[..2] == two && two[..1] == one && one[..0] == [];
    assert CountSetWins(one, P1) == 1 && CountSetWins(one, P2) == 0;
    assert CountSetWins(two, P1) == 1 && CountSetWins(two, P2) == 1;
    assert CountSetWins(sets, P1) == 2 && CountSetWins(sets, P2) == 1;
    EventKindOfPoint(s, P1, id, now);
    MatchWinEffects(s, P1, id, now);
  }

  /** A summary of a match in its second set, as the live client writes it. */
  const SecondSetSummary := LiveMatchSummary(
    id := "m-1", p1Name := Some("A"), p2Name := Some("B"), p1Color := None, p2Color := None,
    scoreSummary := "6-4, 2-1", currentGames := Some(GameScore(2, 1)),
    currentSets := Some([GameScore(6, 4), NoGames]), server := P1, creatorUid := "u1",
    isDoubles := false, status := Live, durationSeconds := Some(180), startTime := Some(100),
    isPaused := Some(false), config := Some(DefaultMatchConfig))

  /**
   * Rebuilding from that summary and a realtime fragment at 30-15 resumes
   * the second set at 30-15 with no switch of ends pending; without the
   * fragment the points are 0-0 and the history is empty, while the
   * server stays the summary's.
   */
  lemma ReconstructScenario(now: int)
    ensures var r := ReconstructMatchState(SecondSetSummary,
                                           Some(MatchRealtimeData(PointScore(Thirty, Fifteen), false, [])),
                                           DefaultMatchConfig, now);
            && r.matchId == Some("m-1") && r.currentSetIndex == 1
            && r.points == PointScore(Thirty, Fifteen) && !r.shouldSwitchSides
    ensures var r := ReconstructMatchState(SecondSetSummary.(server := P2), None, DefaultMatchConfig, now);
            r.points == LadderZeros && r.history == [] && r.server == P2
  {
  }

  /** Summary colours win over the fallback's in the rebuilt configuration. */
  lemma ReconstructColourScenario(now: int)
    ensures var summary := SecondSetSummary.(p1Color := Some("purple"), p2Color := Some("green"), config := None);
            var r := ReconstructMatchState(summary, None, DefaultMatchConfig, now);
            r.config.p1Color == Some("purple") && r.config.p2Color == Some("green")
  {
  }

  /** A summary document with no field at all. */
  const BlankRawSummary := RawSummary(
    None, None, None, None, None, None, None, None, None, None, None, None, None,
    None, None, None, None, None, None, None, None, None, None, None, None, None, None, None)

  /**
   * A summary and a realtime document written with the web client's
   * snake_case keys normalise to the typed records with the same values.
   */
  lemma SnakeCaseScenario(now: int)
    ensures var raw := BlankRawSummary.(
              id := Some("m3"), p1_name := Some("Alice"), p2_name := Some("Bob"),
              score_summary := Some("6-4, 1-0"), current_games := Some(GameScore(1, 0)),
              current_sets := Some([GameScore(6, 4)]), server := Some(P2), creator_uid := Some("uid-x"),
              is_doubles := Some(false), status := Some(Text("LIVE")), match_duration := Some(90),
              startTime := Some(10), isPaused := Some(true));
            NormalizeSummary(raw, "m3", now) == LiveMatchSummary(
              id := "m3", p1Name := Some("Alice"), p2Name := Some("Bob"), p1Color := None, p2Color := None,
              scoreSummary := "6-4, 1-0", currentGames := Some(GameScore(1, 0)),
              currentSets := Some([GameScore(6, 4)]), server := P2, creatorUid := "uid-x",
              isDoubles := false, status := Live, durationSeconds := Some(90), startTime := Some(10),
              isPaused := Some(true), config := None)
    ensures NormalizeRealtime(RawRealtime(None, Some(PointScore(Fifteen, Thirty)), None, Some(true), Some([])))
              == MatchRealtimeData(PointScore(Fifteen, Thirty), true, [])
  {
  }
}
