/**
 * Well-formedness of match states, its preservation by the score and undo
 * engines, and the undo round trip.
 */
module MatchInvariants {
  import opened MatchTypes
  import opened Scoring
  import opened AddPointLaws
  import opened Initialize
  import opened Undo
  import LiveSync

  /**
   * A coherent score (`over` says whether it is the score of a finished
   * match): at least one set; ladder labels outside a tie-break and, while
   * a tie-break is being played, numeric labels and level games; "Ad" only
   * against "40"; and while play goes on, an untouched current set and no
   * side yet at `setsToWin` sets.
   */
  ghost predicate ScoreWellFormed(snap: Snapshot, config: MatchConfig, over: bool)
  {
    && |snap.sets| >= 1
    && (!snap.isTieBreak ==> snap.points.p1.IsLadder() && snap.points.p2.IsLadder())
    && (snap.isTieBreak && !over ==>
          snap.points.p1.Num? && snap.points.p2.Num? && snap.games.p1 == snap.games.p2)
    && (snap.points.p1 == Ad ==> snap.points.p2 == Forty)
    && (snap.points.p2 == Ad ==> snap.points.p1 == Forty)
    && (!over ==>
          && snap.sets[|snap.sets| - 1] == NoGames
          && CountSetWins(snap.sets, P1) < config.setsToWin
          && CountSetWins(snap.sets, P2) < config.setsToWin)
  }

  /**
   * A well-formed state: a coherent score, one set slot per set played so
   * far (`|sets| == currentSetIndex + 1`), and a winner exactly when the
   * match is over.
   */
  ghost predicate WellFormed(s: MatchState)
  {
    && ScoreWellFormed(s.Score(), s.config, s.isMatchOver)
    && |s.sets| == s.currentSetIndex + 1
    && (s.winner.Some? <==> s.isMatchOver)
  }

  /**
   * A well-formed state whose history agrees with it: the last snapshot
   * is the current score, the match is over exactly after a match-win
   * event, which can only be the last one, and every snapshot is itself
   * coherent. A state without history may hold any well-formed score, as
   * a match rebuilt from its summary document does.
   */
  ghost predicate Consistent(s: MatchState)
  {
    var h := s.history;
    && WellFormed(s)
    && (|h| > 0 ==> h[|h| - 1].snapshot == s.Score() && h[|h| - 1].sideSwitchAfter == Some(s.shouldSwitchSides))
    && (s.isMatchOver <==> |h| > 0 && h[|h| - 1].kind == MatchWin)
    && (forall i :: 0 <= i < |h| ==>
          ScoreWellFormed(h[i].snapshot, s.config, h[i].kind == MatchWin) && h[i].sideSwitchAfter.Some?)
    && (forall i :: 0 <= i < |h| - 1 ==> h[i].kind != MatchWin)
  }

  /** Every well-formed state can be scored in, whoever wins the point. */
  lemma WellFormedIsScorable(s: MatchState, winner: Side)
    requires WellFormed(s)
    ensures Scorable(s, winner)
  {
  }

  /** Appending a set nobody has won leaves every side's set count unchanged. */
  lemma {:induction false} CountSetWinsAppendUnwon(sets: seq<SetScore>, side: Side)
    ensures CountSetWins(sets + [NoGames], side) == CountSetWins(sets, side)
  {
    assert (sets + [NoGames])[..|sets|] == sets;
  }

  /**
   * Writing a won set over an untouched last slot adds one set to its
   * winner's count and none to the other side's.
   */
  lemma {:induction false} CountSetWinsFinishLast(sets: seq<SetScore>, v: SetScore, side: Side)
    requires |sets| >= 1 && sets[|sets| - 1] == NoGames && SetWonBy(v, side)
    ensures CountSetWins(sets[|sets| - 1 := v], side) == CountSetWins(sets, side) + 1
    ensures CountSetWins(sets[|sets| - 1 := v], side.Other()) == CountSetWins(sets, side.Other())
  {
    assert sets[|sets| - 1 := v][..|sets| - 1] == sets[..|sets| - 1];
  }

  /** When every set of `sets` has a winner, the two sides' set counts add up to the number of sets. */
  lemma {:induction false} DecidedSetsCount(sets: seq<SetScore>)
    requires forall i :: 0 <= i < |sets| ==> SetWonBy(sets[i], P1) || SetWonBy(sets[i], P2)
    ensures CountSetWins(sets, P1) + CountSetWins(sets, P2) == |sets|
  {
    if |sets| > 0 {
      var prefix := sets[..|sets| - 1];
      assert forall i :: 0 <= i < |prefix| ==> prefix[i] == sets[i];
      DecidedSetsCount(prefix);
    }
  }

  /**
   * The deciding set is the last set a match can reach: while play goes
   * on with every completed set won by someone, the current set index is
   * at most `2 * setsToWin - 2`, and the current set is the decider exactly
   * when both sides stand at `setsToWin - 1` sets.
   */
  lemma DeciderIsLastReachableSet(config: MatchConfig, sets: seq<SetScore>)
    requires |sets| >= 1 && sets[|sets| - 1] == NoGames
    requires forall i :: 0 <= i < |sets| - 1 ==> SetWonBy(sets[i], P1) || SetWonBy(sets[i], P2)
    requires CountSetWins(sets, P1) < config.setsToWin && CountSetWins(sets, P2) < config.setsToWin
    ensures |sets| - 1 <= 2 * config.setsToWin - 2
    ensures IsDeciderSet(config, |sets| - 1) <==>
              CountSetWins(sets, P1) == config.setsToWin - 1 && CountSetWins(sets, P2) == config.setsToWin - 1
  {
    var completed := sets[..|sets| - 1];
    assert sets == completed + [NoGames];
    CountSetWinsAppendUnwon(completed, P1);
    CountSetWinsAppendUnwon(completed, P2);
    DecidedSetsCount(completed);
  }

  /** A set that ends with a won game is won by the side that won that game. */
  lemma FinishedSetWonByPointWinner(s: MatchState, winner: Side)
    requires WellFormed(s) && !s.isMatchOver
    requires SetEnds(s, winner)
    ensures SetWonBy(GamesAfter(s, winner), winner)
  {
  }

  /** The score engine keeps a state well-formed. */
  lemma AddPointPreservesWellFormed(s: MatchState, winner: Side, id: string, now: int)
    requires WellFormed(s)
    ensures Scorable(s, winner)
    ensures WellFormed(AddPoint(s, winner, id, now))
  {
    WellFormedIsScorable(s, winner);
    if Active(s) {
      var r := AddPoint(s, winner, id, now);
      EventKindOfPoint(s, winner, id, now);
      var kind := LastEvent(r).kind;
      if kind == Point {
        PointEventEffects(s, winner, id, now);
      } else if kind == GameWin {
        GameWinEffects(s, winner, id, now);
      } else if kind == SetWin {
        SetWinKeepsWellFormed(s, winner, id, now);
      } else {
        MatchWinEffects(s, winner, id, now);
      }
    }
  }

  /** A set win keeps a state well-formed: the new set is untouched and no side reached `setsToWin`. */
  lemma SetWinKeepsWellFormed(s: MatchState, winner: Side, id: string, now: int)
    requires WellFormed(s) && Active(s) && Scorable(s, winner)
    requires LastEvent(AddPoint(s, winner, id, now)).kind == SetWin
    ensures WellFormed(AddPoint(s, winner, id, now))
  {
    EventKindOfPoint(s, winner, id, now);
    SetWinEffects(s, winner, id, now);
    var sets := FinalSets(s, winner);
    assert sets == s.sets[s.currentSetIndex := GamesAfter(s, winner)];
    CountSetWinsAppendUnwon(sets, P1);
    CountSetWinsAppendUnwon(sets, P2);
  }

  /**
   * In a well-formed state the side whose point ends the match is the
   * winner: no side had `setsToWin` sets before, and the finished set is
   * the only one that changes hands.
   */
  lemma MatchWinnerWonTheLastPoint(s: MatchState, winner: Side, id: string, now: int)
    requires WellFormed(s) && Active(s)
    ensures Scorable(s, winner)
    ensures AddPoint(s, winner, id, now).isMatchOver ==> AddPoint(s, winner, id, now).winner == Some(winner)
  {
    WellFormedIsScorable(s, winner);
    var r := AddPoint(s, winner, id, now);
    EventKindOfPoint(s, winner, id, now);
    if r.isMatchOver {
      MatchWinEffects(s, winner, id, now);
      FinishedSetWonByPointWinner(s, winner);
      var sets := FinalSets(s, winner);
      assert sets == s.sets[|s.sets| - 1 := GamesAfter(s, winner)];
      CountSetWinsFinishLast(s.sets, GamesAfter(s, winner), winner);
      assert CountSetWins(sets, winner) > CountSetWins(sets, winner.Other());
    }
  }

  /** The score engine keeps the history consistent with the state. */
  lemma AddPointPreservesConsistent(s: MatchState, winner: Side, id: string, now: int)
    requires Scorable(s, winner)
    ensures Consistent(s) ==> Consistent(AddPoint(s, winner, id, now))
  {
    if Consistent(s) && Active(s) {
      AddPointPreservesWellFormed(s, winner, id, now);
      var r := AddPoint(s, winner, id, now);
      var h := r.history;
      assert h[..|s.history|] == s.history;
      forall i | 0 <= i < |h|
        ensures ScoreWellFormed(h[i].snapshot, r.config, h[i].kind == MatchWin) && h[i].sideSwitchAfter.Some?
      {
        if i < |s.history| {
          assert h[i] == s.history[i];
        }
      }
      forall i | 0 <= i < |h| - 1
        ensures h[i].kind != MatchWin
      {
        assert h[i] == s.history[i];
        if i == |s.history| - 1 {
          assert !s.isMatchOver;
        }
      }
    }
  }

  /** The undo engine keeps the history consistent with the state. */
  lemma UndoPreservesConsistent(s: MatchState)
    ensures Consistent(s) ==> Consistent(UndoPoint(s))
  {
    var r := UndoPoint(s);
    var h := s.history;
    if Consistent(s) && |h| >= 2 {
      var k := |h| - 2;
      assert r.history[k] == h[k];
      assert ScoreWellFormed(h[k].snapshot, s.config, false) && h[k].sideSwitchAfter.Some?;
      if h[k].sideSwitchAfter.value {
        assert r.shouldSwitchSides;
      } else {
        assert h[k].sideSwitchAfter == Some(false) && !r.shouldSwitchSides;
      }
      assert r.history[k].sideSwitchAfter == Some(r.shouldSwitchSides);
      forall i | 0 <= i < |r.history|
        ensures ScoreWellFormed(r.history[i].snapshot, r.config, r.history[i].kind == MatchWin)
                && r.history[i].sideSwitchAfter.Some?
      {
        assert r.history[i] == h[i];
      }
      forall i | 0 <= i < |r.history| - 1
        ensures r.history[i].kind != MatchWin
      {
        assert r.history[i] == h[i];
      }
    }
  }

  /** A fresh match is consistent. */
  lemma InitializeIsConsistent(config: MatchConfig, now: int)
    ensures Consistent(InitializeMatch(config, now))
  {
  }

  /**
   * Undoing a point restores the score fields and tie-break flag whenever
   * they agree with the last snapshot (or, with no history, are the
   * initial score).
   */
  lemma UndoRestoresScore(s: MatchState, winner: Side, id: string, now: int)
    requires Active(s) && Scorable(s, winner)
    requires |s.history| == 0 ==> s.Score() == InitialScore
    requires |s.history| > 0 ==> s.Score() == LastEvent(s).snapshot
    ensures UndoPoint(AddPoint(s, winner, id, now)).Score() == s.Score()
  {
    var r := AddPoint(s, winner, id, now);
    assert r.history[..|r.history| - 1] == s.history;
  }

  /**
   * The undo round trip on a consistent state. After earlier events,
   * undoing the point just scored gives back the state exactly, except
   * that the server is not restored. Undoing the first recorded point
   * instead starts the match afresh: the score goes back to 0-0 and the
   * match id is dropped, so the round trip is exact (up to server and id)
   * only when the state held the initial score.
   */
  lemma UndoAfterAddPoint(s: MatchState, winner: Side, id: string, now: int)
    requires Consistent(s) && Active(s)
    ensures Scorable(s, winner)
    ensures |s.history| > 0 ==>
              UndoPoint(AddPoint(s, winner, id, now)) == s.(server := AddPoint(s, winner, id, now).server)
    ensures |s.history| == 0 ==>
              UndoPoint(AddPoint(s, winner, id, now))
                == InitializeMatch(s.config, s.startTime).(durationSeconds := s.durationSeconds)
    ensures |s.history| == 0 ==>
              ((UndoPoint(AddPoint(s, winner, id, now)) == s.(server := P1, matchId := None))
               <==> (s.Score() == InitialScore && !s.shouldSwitchSides))
  {
    WellFormedIsScorable(s, winner);
    var r := AddPoint(s, winner, id, now);
    assert r.history[..|r.history| - 1] == s.history;
    if |s.history| == 0 {
      EventKindOfPoint(s, winner, id, now);
      assert |r.history| == 1;
      var u := UndoPoint(r);
      assert u == InitializeMatch(s.config, s.startTime).(durationSeconds := s.durationSeconds);
      if s.Score() == InitialScore && !s.shouldSwitchSides {
        assert s.currentSetIndex == 0 && s.winner == None;
        assert u == s.(server := P1, matchId := None);
      }
    }
  }

  /**
   * A live match rebuilt from its summary document alone (no realtime
   * fragment) has no history, so it is consistent whatever score the
   * summary carried; the first point scored in it and then undone resets
   * it to a fresh match, losing the rebuilt sets and games and the match
   * id.
   */
  lemma RebuiltMatchFirstUndoStartsAfresh(summary: LiveSync.LiveMatchSummary, fallback: MatchConfig, now: int,
                                           winner: Side, id: string, t: int)
    requires summary.status == LiveSync.Live && summary.isPaused != Some(true)
    requires var sets := LiveSync.SummarySets(summary);
             var config := LiveSync.ResolveConfig(summary, fallback);
             && sets[|sets| - 1] == NoGames
             && CountSetWins(sets, P1) < config.setsToWin
             && CountSetWins(sets, P2) < config.setsToWin
    ensures Consistent(LiveSync.ReconstructMatchState(summary, None, fallback, now))
    ensures var r := LiveSync.ReconstructMatchState(summary, None, fallback, now);
            && Scorable(r, winner)
            && UndoPoint(AddPoint(r, winner, id, t)) == InitializeMatch(r.config, r.startTime).(durationSeconds := r.durationSeconds)
            && UndoPoint(AddPoint(r, winner, id, t)).matchId == None
  {
    var r := LiveSync.ReconstructMatchState(summary, None, fallback, now);
    assert WellFormed(r);
    UndoAfterAddPoint(r, winner, id, t);
  }
}
