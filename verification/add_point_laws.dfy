/**
 * What one call of the score engine does, stated per stage in terms of
 * the state before the point: which event it records and what that event
 * changes.
 */
module AddPointLaws {
  import opened MatchTypes
  import opened Scoring

  /** The state is being played: neither over nor paused. */
  predicate Active(s: MatchState)
  {
    !s.isMatchOver && !s.isPaused
  }

  /** The point `winner` wins in `s` ends the current game. */
  predicate GameWon(s: MatchState, winner: Side)
    requires !s.isTieBreak || s.points.Get(winner) != Ad
  {
    ResolvePoint(s, winner).gameWon
  }

  /** The games of the current set once `winner` is credited with one more. */
  function GamesAfter(s: MatchState, winner: Side): GameScore
  {
    s.games.With(winner, s.games.Get(winner) + 1)
  }

  /** The won game also ends the set. */
  predicate SetEnds(s: MatchState, winner: Side)
    requires !s.isTieBreak || s.points.Get(winner) != Ad
  {
    var g := GamesAfter(s, winner);
    var at := s.config.tieBreakAt;
    && GameWon(s, winner)
    && (|| s.isTieBreak
        || (g.Get(winner) >= at + 1 && g.Get(winner) - g.Get(winner.Other()) >= 2)
        || (g.Get(winner) == at && g.Get(winner.Other()) <= at - 2))
  }

  /** The sets with the finished set's games written into the current slot. */
  function FinalSets(s: MatchState, winner: Side): seq<SetScore>
    requires s.currentSetIndex <= |s.sets|
  {
    WriteSlot(s.sets, s.currentSetIndex, GamesAfter(s, winner))
  }

  /** The finished set gives some side `setsToWin` sets. */
  predicate MatchEnds(s: MatchState, winner: Side)
    requires s.currentSetIndex <= |s.sets|
    requires !s.isTieBreak || s.points.Get(winner) != Ad
  {
    && SetEnds(s, winner)
    && (|| CountSetWins(FinalSets(s, winner), P1) >= s.config.setsToWin
        || CountSetWins(FinalSets(s, winner), P2) >= s.config.setsToWin)
  }

  predicate Odd(n: int)
  {
    n % 2 == 1
  }

  /** The kind of the recorded event is decided by how far the point reaches. */
  lemma EventKindOfPoint(s: MatchState, winner: Side, id: string, now: int)
    requires Active(s) && Scorable(s, winner)
    ensures var r := AddPoint(s, winner, id, now);
            && (LastEvent(r).kind == Point <==> !GameWon(s, winner))
            && (LastEvent(r).kind == GameWin <==> GameWon(s, winner) && !SetEnds(s, winner))
            && (LastEvent(r).kind == SetWin <==> SetEnds(s, winner) && !MatchEnds(s, winner))
            && (LastEvent(r).kind == MatchWin <==> MatchEnds(s, winner))
  {
  }

  /**
   * A point that does not end the game changes only the point labels (as
   * the ladder or the tie-break count says); the players switch ends only
   * on a tie-break point that brings the total to a positive multiple of 6.
   */
  lemma PointEventEffects(s: MatchState, winner: Side, id: string, now: int)
    requires Active(s) && Scorable(s, winner) && !GameWon(s, winner)
    ensures var r := AddPoint(s, winner, id, now);
            && LastEvent(r).kind == Point
            && r.Score() == s.Score().(points := ResolvePoint(s, winner).points)
            && r.currentSetIndex == s.currentSetIndex && r.server == s.server
            && (s.isTieBreak && r.points.p1.Num? && r.points.p2.Num? ==>
                  (r.shouldSwitchSides <==> r.points.p1.n + r.points.p2.n > 0
                                            && (r.points.p1.n + r.points.p2.n) % 6 == 0))
            && (!s.isTieBreak ==> !r.shouldSwitchSides)
  {
  }

  /**
   * A won game that does not end the set credits the winner with a game,
   * hands the serve over, resets the points, and starts a tie-break with
   * numeric 0-0 exactly at tieBreakAt-all; ends switch after an odd number
   * of games.
   */
  lemma GameWinEffects(s: MatchState, winner: Side, id: string, now: int)
    requires Active(s) && Scorable(s, winner) && GameWon(s, winner) && !SetEnds(s, winner)
    ensures var r := AddPoint(s, winner, id, now);
            var at := s.config.tieBreakAt;
            var g := GamesAfter(s, winner);
            && LastEvent(r).kind == GameWin
            && r.games == g && r.sets == s.sets && r.currentSetIndex == s.currentSetIndex
            && r.server == s.server.Other()
            && (r.isTieBreak <==> g.p1 == at && g.p2 == at)
            && r.points == (if r.isTieBreak then NumericZeros else LadderZeros)
            && (r.shouldSwitchSides <==> Odd(g.Total()))
  {
  }

  /**
   * A won set that does not end the match is written to its slot, a fresh
   * 0-0 set is appended, games reset, the serve changes hands, and a
   * numeric 0-0 tie-break starts only for a super tie-break deciding set;
   * ends switch after an odd number of games in the finished set.
   */
  lemma SetWinEffects(s: MatchState, winner: Side, id: string, now: int)
    requires Active(s) && Scorable(s, winner) && SetEnds(s, winner) && !MatchEnds(s, winner)
    ensures var r := AddPoint(s, winner, id, now);
            && LastEvent(r).kind == SetWin
            && r.currentSetIndex == s.currentSetIndex + 1
            && r.sets == FinalSets(s, winner) + [GameScore(0, 0)]
            && r.sets[s.currentSetIndex] == GamesAfter(s, winner)
            && r.games == GameScore(0, 0)
            && r.server == s.server.Other()
            && (r.isTieBreak <==> s.config.finalSetType == SuperTieBreak
                                  && r.currentSetIndex + 1 == s.config.setsToWin * 2 - 1)
            && r.points == (if r.isTieBreak then NumericZeros else LadderZeros)
            && (r.shouldSwitchSides <==> Odd(GamesAfter(s, winner).Total()))
  {
  }

  /**
   * A won set that ends the match keeps the serve where it was, names as
   * winner P1 exactly when P1 won more sets, and switches ends after an odd
   * number of games in the final set.
   */
  lemma MatchWinEffects(s: MatchState, winner: Side, id: string, now: int)
    requires Active(s) && Scorable(s, winner) && MatchEnds(s, winner)
    ensures var r := AddPoint(s, winner, id, now);
            var sets := FinalSets(s, winner);
            && LastEvent(r).kind == MatchWin
            && r.isMatchOver
            && r.sets == sets && r.sets[s.currentSetIndex] == GamesAfter(s, winner)
            && r.currentSetIndex == s.currentSetIndex
            && r.server == s.server
            && (r.winner == Some(P1) <==> CountSetWins(sets, P1) > CountSetWins(sets, P2))
            && r.winner.Some?
            && (r.shouldSwitchSides <==> Odd(GamesAfter(s, winner).Total()))
  {
  }
}
