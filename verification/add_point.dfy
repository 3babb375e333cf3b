/**
 * The score engine: the effect of one point on a match state, in four
 * stages (point, game, set, match), each recorded as one history event.
 */
module Scoring {
  import opened MatchTypes
  import opened Precedence

  /** The position of a ladder label: "0" is 0, "15" is 1, "30" is 2, "40" is 3, "Ad" is 4. */
  function LadderRank(l: PointLabel): nat
    requires l.IsLadder()
  {
    match l
    case Zero => 0
    case Fifteen => 1
    case Thirty => 2
    case Forty => 3
    case Ad => 4
  }

  /**
   * The label after one more point below 40; "40", "Ad" and numeric
   * labels are returned as they are.
   */
  function NextPointLabel(current: PointLabel): (r: PointLabel)
    ensures current.IsLadder() && LadderRank(current) < 3 ==>
              r.IsLadder() && LadderRank(r) == LadderRank(current) + 1
    ensures !(current.IsLadder() && LadderRank(current) < 3) ==> r == current
  {
    match current
    case Zero => Fifteen
    case Fifteen => Thirty
    case Thirty => Forty
    case _ => current
  }

  function OtherPlayer(id: Side): (r: Side)
    ensures r != id && r.Other() == id
  {
    id.Other()
  }

  /**
   * JavaScript's `Number` of a label: the ladder strings are their
   * numbers, a numeric label is itself, and "Ad" is NaN (`None`).
   */
  function NumberOf(l: PointLabel): (r: Option<nat>)
    ensures r.None? <==> l == Ad
    ensures l.Num? ==> r == Some(l.n)
  {
    match l
    case Zero => Some(0)
    case Fifteen => Some(15)
    case Thirty => Some(30)
    case Forty => Some(40)
    case Ad => None
    case Num(n) => Some(n)
  }

  /** True when some side has won strictly more games of `score` than the other; `side` is that side. */
  predicate SetWonBy(score: SetScore, side: Side)
  {
    score.Get(side) > score.Get(side.Other())
  }

  /** The number of sets in `sets` that `side` won. */
  function CountSetWins(sets: seq<SetScore>, side: Side): (n: nat)
    ensures n <= |sets|
    ensures n == |sets| ==> forall i :: 0 <= i < |sets| ==> SetWonBy(sets[i], side)
  {
    if |sets| == 0 then 0
    else CountSetWins(sets[..|sets| - 1], side) + (if SetWonBy(sets[|sets| - 1], side) then 1 else 0)
  }

  /** The positions of the sets in `sets` that `side` won. */
  ghost function WonSets(sets: seq<SetScore>, side: Side): set<nat>
  {
    set i: nat | i < |sets| && SetWonBy(sets[i], side)
  }

  /** The set count is the number of positions at which `side` won the set. */
  lemma {:induction false} CountSetWinsIsWonSets(sets: seq<SetScore>, side: Side)
    ensures CountSetWins(sets, side) == |WonSets(sets, side)|
  {
    if |sets| == 0 {
      assert WonSets(sets, side) == {};
    } else {
      var k := |sets| - 1;
      var prefix := sets[..k];
      CountSetWinsIsWonSets(prefix, side);
      if SetWonBy(sets[k], side) {
        WonSetsExtend(sets, side);
        assert WonSets(sets, side) == WonSets(prefix, side) + {k};
      } else {
        WonSetsExtend(sets, side);
      }
    }
  }

  /** The won positions of a sequence are those of its prefix, plus the last one if it was won. */
  lemma WonSetsExtend(sets: seq<SetScore>, side: Side)
    requires |sets| > 0
    ensures SetWonBy(sets[|sets| - 1], side) ==>
              WonSets(sets, side) == WonSets(sets[..|sets| - 1], side) + {|sets| - 1}
    ensures !SetWonBy(sets[|sets| - 1], side) ==> WonSets(sets, side) == WonSets(sets[..|sets| - 1], side)
    ensures |sets| - 1 !in WonSets(sets[..|sets| - 1], side)
  {
    var k := |sets| - 1;
    var prefix := sets[..k];
    forall i: nat | i < k
      ensures sets[i] == prefix[i]
    {
    }
  }

  /** The deciding set is the last one a best-of-(2 * setsToWin - 1) match can reach. */
  predicate IsDeciderSet(config: MatchConfig, setIndex: nat)
  {
    setIndex + 1 == config.setsToWin * 2 - 1
  }

  /**
   * The points a tie-break in set `setIndex` is played to: 10 in the
   * deciding set (index `2 * setsToWin - 2`) of a match whose final set is
   * a super tie-break, and the configured `tieBreakPoints` everywhere else.
   */
  function TieBreakTarget(config: MatchConfig, setIndex: nat): (r: int)
    ensures config.finalSetType == SuperTieBreak && setIndex == 2 * config.setsToWin - 2 ==> r == 10
    ensures config.finalSetType != SuperTieBreak ==> r == config.tieBreakPoints
    ensures setIndex != 2 * config.setsToWin - 2 ==> r == config.tieBreakPoints
  {
    if config.finalSetType == SuperTieBreak && IsDeciderSet(config, setIndex) then 10
    else config.tieBreakPoints
  }

  /** The point score after a point, and whether that point won the game. */
  datatype PointResolution = PointResolution(points: PointScore, gameWon: bool)

  /**
   * A tie-break point: the winner's number goes up by one, and the game is
   * won when it reaches `target` two clear of the loser.
   */
  function ResolveTieBreakPoint(points: PointScore, winner: Side, target: int): (r: PointResolution)
    requires points.Get(winner) != Ad
    ensures r.points.Get(winner) == Num(NumberOf(points.Get(winner)).value + 1)
    ensures r.points.Get(winner.Other()) == points.Get(winner.Other())
    ensures points.Get(winner).Num? && points.Get(winner.Other()).Num? ==>
              (r.gameWon <==> (points.Get(winner).n + 1 >= target
                               && points.Get(winner).n + 1 - points.Get(winner.Other()).n >= 2))
    ensures points.Get(winner.Other()) == Ad ==> !r.gameWon
  {
    var loser := OtherPlayer(winner);
    var winnerScore := NumberOf(points.Get(winner)).value + 1;
    var loserScore := NumberOf(points.Get(loser));
    PointResolution(
      points.With(winner, Num(winnerScore)),
      loserScore.Some? && winnerScore >= target && winnerScore - loserScore.value >= 2)
  }

  /**
   * A point on the 0/15/30/40/Ad ladder. The game is won from "Ad", and
   * from "40" unless the loser holds "Ad" (who drops back to "40") or the
   * score is 40-40 with advantage scoring (the winner takes "Ad").
   */
  function ResolveStandardPoint(points: PointScore, winner: Side, useAdvantage: bool): (r: PointResolution)
    ensures r.gameWon <==> points.Get(winner) == Ad
                           || (points.Get(winner) == Forty && points.Get(winner.Other()) != Ad
                               && !(points.Get(winner.Other()) == Forty && useAdvantage))
    ensures points.Get(winner) !in {Forty, Ad} ==>
              r.points == points.With(winner, NextPointLabel(points.Get(winner)))
    ensures points.Get(winner) == Forty && points.Get(winner.Other()) == Ad ==>
              r.points == points.With(winner.Other(), Forty)
    ensures points.Get(winner) == Forty && points.Get(winner.Other()) == Forty && useAdvantage ==>
              r.points == points.With(winner, Ad)
  {
    var loser := OtherPlayer(winner);
    var winnerPoint := points.Get(winner);
    var loserPoint := points.Get(loser);
    if winnerPoint == Ad then PointResolution(points, true)
    else if winnerPoint != Forty then PointResolution(points.With(winner, NextPointLabel(winnerPoint)), false)
    else if loserPoint == Ad then PointResolution(points.With(loser, Forty), false)
    else if loserPoint == Forty && useAdvantage then PointResolution(points.With(winner, Ad), false)
    else PointResolution(points, true)
  }

  /** What a won game does to its set. */
  datatype SetProgress = SetOver | StartTieBreak | SetContinues

  /**
   * After a game is won (games already counted): a tie-break game always
   * ends the set; otherwise the set ends at tieBreakAt+1 or more with a
   * two-game margin, or at tieBreakAt against tieBreakAt-2 or fewer; at
   * tieBreakAt-all a tie-break starts.
   */
  function MaybeFinishSet(games: GameScore, winner: Side, tieBreakAt: int, isTieBreak: bool): (r: SetProgress)
    ensures r == SetOver <==>
              isTieBreak
              || (games.Get(winner) >= tieBreakAt + 1 && games.Get(winner) - games.Get(winner.Other()) >= 2)
              || (games.Get(winner) == tieBreakAt && games.Get(winner.Other()) <= tieBreakAt - 2)
    ensures r == StartTieBreak <==>
              !isTieBreak && games.Get(winner) == tieBreakAt && games.Get(winner.Other()) == tieBreakAt
  {
    var winnerGames := games.Get(winner);
    var loserGames := games.Get(OtherPlayer(winner));
    if isTieBreak then SetOver
    else if winnerGames >= tieBreakAt + 1 && winnerGames - loserGames >= 2 then SetOver
    else if winnerGames == tieBreakAt && loserGames <= tieBreakAt - 2 then SetOver
    else if winnerGames == tieBreakAt && loserGames == tieBreakAt then StartTieBreak
    else SetContinues
  }

  /** The set at index `i`, if `sets` has one there (JavaScript's `sets[i]`). */
  function SetAt(sets: seq<SetScore>, i: int): (r: Option<SetScore>)
    ensures r.Some? <==> 0 <= i < |sets|
    ensures r.Some? ==> r.value == sets[i]
  {
    if 0 <= i < |sets| then Some(sets[i]) else None
  }

  /**
   * Whether the players change ends after an event of `kind` that led to
   * state `s`: every sixth tie-break point, and after an odd number of
   * games in the current set (game win) or in the set just completed.
   */
  function ShouldSwitchSides(s: MatchState, kind: EventKind): bool
  {
    if s.isTieBreak && kind == Point then
      var p1 := NumberOf(s.points.p1);
      var p2 := NumberOf(s.points.p2);
      p1.Some? && p2.Some? && p1.value + p2.value > 0 && (p1.value + p2.value) % 6 == 0
    else if kind != GameWin && !(kind == SetWin && !s.isMatchOver) && kind != MatchWin then false
    else if kind == SetWin || kind == MatchWin then
      var i := s.currentSetIndex;
      var finishedSet := FirstPresent([
        SetAt(s.sets, i - (if kind == SetWin then 1 else 0)),
        SetAt(s.sets, i),
        SetAt(s.sets, i - 1)]);
      finishedSet.Some? && finishedSet.value.Total() % 2 != 0
    else
      s.games.Total() > 0 && s.games.Total() % 2 != 0
  }

  /**
   * The switch-of-ends rule by event kind: in a tie-break every sixth
   * point; never after another plain point; after a game that leaves an
   * odd number of games in the set; after a set (or the match) whose
   * finished set holds an odd number of games; never after the set that
   * ends the match is recorded as a set win.
   */
  lemma SideSwitchRule(s: MatchState, kind: EventKind)
    ensures kind == Point && s.isTieBreak ==>
              (ShouldSwitchSides(s, kind) <==>
                 && s.points.p1 != Ad && s.points.p2 != Ad
                 && var total := NumberOf(s.points.p1).value + NumberOf(s.points.p2).value;
                    total > 0 && total % 6 == 0)
    ensures kind == Point && !s.isTieBreak ==> !ShouldSwitchSides(s, kind)
    ensures kind == GameWin ==> (ShouldSwitchSides(s, kind) <==> s.games.Total() % 2 == 1)
    ensures kind == SetWin && s.isMatchOver ==> !ShouldSwitchSides(s, kind)
    ensures kind == SetWin && !s.isMatchOver && 1 <= s.currentSetIndex <= |s.sets| ==>
              (ShouldSwitchSides(s, kind) <==> s.sets[s.currentSetIndex - 1].Total() % 2 == 1)
    ensures kind == MatchWin && s.currentSetIndex < |s.sets| ==>
              (ShouldSwitchSides(s, kind) <==> s.sets[s.currentSetIndex].Total() % 2 == 1)
  {
    match kind
    case Point => PointSwitchRule(s);
    case GameWin =>
    case SetWin => SetSwitchRule(s);
    case MatchWin => MatchSwitchRule(s);
  }

  /** The switch rule after a plain point. */
  lemma PointSwitchRule(s: MatchState)
    ensures s.isTieBreak ==>
              (ShouldSwitchSides(s, Point) <==>
                 && s.points.p1 != Ad && s.points.p2 != Ad
                 && var total := NumberOf(s.points.p1).value + NumberOf(s.points.p2).value;
                    total > 0 && total % 6 == 0)
    ensures !s.isTieBreak ==> !ShouldSwitchSides(s, Point)
  {
  }

  /** The switch rule after a set win. */
  lemma SetSwitchRule(s: MatchState)
    ensures s.isMatchOver ==> !ShouldSwitchSides(s, SetWin)
    ensures !s.isMatchOver && 1 <= s.currentSetIndex <= |s.sets| ==>
              (ShouldSwitchSides(s, SetWin) <==> s.sets[s.currentSetIndex - 1].Total() % 2 == 1)
  {
    var i := s.currentSetIndex;
    if !s.isMatchOver && 1 <= i <= |s.sets| {
      FirstPresentOfPresentHead(SetAt(s.sets, i - 1), SetAt(s.sets, i), SetAt(s.sets, i - 1));
    }
  }

  /** The switch rule after a match win. */
  lemma MatchSwitchRule(s: MatchState)
    ensures s.currentSetIndex < |s.sets| ==>
              (ShouldSwitchSides(s, MatchWin) <==> s.sets[s.currentSetIndex].Total() % 2 == 1)
  {
    var i := s.currentSetIndex;
    if i < |s.sets| {
      FirstPresentOfPresentHead(SetAt(s.sets, i), SetAt(s.sets, i), SetAt(s.sets, i - 1));
    }
  }

  /** Of three candidates, a present first one is the one chosen. */
  lemma FirstPresentOfPresentHead(a: Option<SetScore>, b: Option<SetScore>, c: Option<SetScore>)
    requires a.Some?
    ensures FirstPresent([a, b, c]) == a
  {
    assert [a, b, c][0] == a;
  }

  /** Appends the event of `kind` with a snapshot of `s`, and records its side-switch decision. */
  function RecordEvent(s: MatchState, winner: Side, kind: EventKind, id: string, now: int): (r: MatchState)
    ensures r == s.(shouldSwitchSides := r.shouldSwitchSides, history := r.history)
    ensures r.history == s.history + [HistoryEvent(id, now, kind, winner, Some(r.shouldSwitchSides), s.Score())]
  {
    var switchSides := ShouldSwitchSides(s, kind);
    s.(shouldSwitchSides := switchSides,
       history := s.history + [HistoryEvent(id, now, kind, winner, Some(switchSides), s.Score())])
  }

  /** `sets[i] = v` in JavaScript, for an index at most one past the end. */
  function WriteSlot(sets: seq<SetScore>, i: nat, v: SetScore): (r: seq<SetScore>)
    requires i <= |sets|
    ensures |r| == if i < |sets| then |sets| else |sets| + 1
    ensures r[i] == v
    ensures forall j :: 0 <= j < |sets| && j != i ==> r[j] == sets[j]
  {
    if i < |sets| then sets[i := v] else sets + [v]
  }

  /**
   * What the engine needs of a state it scores in: the current set index
   * names an existing slot or the next one, and a tie-break winner does
   * not hold "Ad" (whose number would be NaN).
   */
  predicate Scorable(s: MatchState, winner: Side)
  {
    s.isMatchOver || s.isPaused
    || (s.currentSetIndex <= |s.sets| && !(s.isTieBreak && s.points.Get(winner) == Ad))
  }

  /** The point resolution of the point `winner` wins in `s`. */
  function ResolvePoint(s: MatchState, winner: Side): PointResolution
    requires !s.isTieBreak || s.points.Get(winner) != Ad
  {
    if s.isTieBreak then ResolveTieBreakPoint(s.points, winner, TieBreakTarget(s.config, s.currentSetIndex))
    else ResolveStandardPoint(s.points, winner, s.config.useAdvantage)
  }

  /** The last event of a non-empty history. */
  function LastEvent(s: MatchState): HistoryEvent
    requires |s.history| > 0
  {
    s.history[|s.history| - 1]
  }

  /**
   * `r` follows from `s` by one effective scoring event of `kind` won by
   * `winner`: the event, carrying the post-event score and side-switch
   * decision, is appended to the history; the match is over exactly after
   * a match win; the server changes exactly after a game or set win; and
   * the configuration, identity, clock and pause flag stay as they were.
   */
  ghost predicate Stepped(s: MatchState, r: MatchState, winner: Side, kind: EventKind, id: string, now: int)
  {
    && r.history == s.history + [HistoryEvent(id, now, kind, winner, Some(r.shouldSwitchSides), r.Score())]
    && r.shouldSwitchSides == ShouldSwitchSides(r, kind)
    && (r.isMatchOver <==> kind == MatchWin)
    && (r.winner != s.winner ==> kind == MatchWin)
    && r.server == (if kind == GameWin || kind == SetWin then s.server.Other() else s.server)
    && r.config == s.config && r.matchId == s.matchId
    && r.startTime == s.startTime && r.durationSeconds == s.durationSeconds
    && r.isPaused == s.isPaused
  }

  /** A point that does not end the game. */
  function PointEvent(s: MatchState, resolution: PointResolution, winner: Side, id: string, now: int): (r: MatchState)
    requires !s.isMatchOver
    ensures Stepped(s, r, winner, Point, id, now)
    ensures r.points == resolution.points
    ensures r.Score() == s.Score().(points := resolution.points)
    ensures r.currentSetIndex == s.currentSetIndex
  {
    RecordEvent(s.(points := resolution.points), winner, Point, id, now)
  }

  /** A won game that does not end the set; it may start a tie-break. */
  function GameWinEvent(s: MatchState, games: GameScore, startTieBreak: bool, winner: Side, id: string, now: int)
    : (r: MatchState)
    requires !s.isMatchOver
    ensures Stepped(s, r, winner, GameWin, id, now)
    ensures r.games == games && r.sets == s.sets && r.currentSetIndex == s.currentSetIndex
    ensures r.isTieBreak == (s.isTieBreak || startTieBreak)
    ensures r.points == if startTieBreak then NumericZeros else LadderZeros
  {
    var gameOver := s.(
      games := games,
      points := if startTieBreak then NumericZeros else LadderZeros,
      isTieBreak := s.isTieBreak || startTieBreak,
      server := s.server.Other());
    RecordEvent(gameOver, winner, GameWin, id, now)
  }

  /** A won game that ends the match; the set's final games are written to its slot. */
  function MatchWinEvent(s: MatchState, sets: seq<SetScore>, games: GameScore, matchWinner: Side,
                         winner: Side, id: string, now: int): (r: MatchState)
    requires !s.isMatchOver
    ensures Stepped(s, r, winner, MatchWin, id, now)
    ensures r.sets == sets && r.games == games && r.points == LadderZeros
    ensures r.isTieBreak == s.isTieBreak && r.currentSetIndex == s.currentSetIndex
    ensures r.winner == Some(matchWinner)
  {
    var matchOver := s.(
      games := games,
      points := LadderZeros,
      sets := sets,
      isMatchOver := true,
      winner := Some(matchWinner));
    RecordEvent(matchOver, winner, MatchWin, id, now)
  }

  /** A won game that ends a set but not the match; the next set starts at 0-0. */
  function SetWinEvent(s: MatchState, sets: seq<SetScore>, winner: Side, id: string, now: int): (r: MatchState)
    requires !s.isMatchOver
    ensures Stepped(s, r, winner, SetWin, id, now)
    ensures r.currentSetIndex == s.currentSetIndex + 1
    ensures r.sets == sets + [NoGames] && r.games == NoGames
    ensures r.isTieBreak <==> s.config.finalSetType == SuperTieBreak && IsDeciderSet(s.config, r.currentSetIndex)
    ensures r.points == if r.isTieBreak then NumericZeros else LadderZeros
  {
    var nextSet := s.currentSetIndex + 1;
    var startSuperTieBreak := s.config.finalSetType == SuperTieBreak && IsDeciderSet(s.config, nextSet);
    var setOver := s.(
      currentSetIndex := nextSet,
      sets := sets + [NoGames],
      games := NoGames,
      points := if startSuperTieBreak then NumericZeros else LadderZeros,
      isTieBreak := startSuperTieBreak,
      server := s.server.Other());
    RecordEvent(setOver, winner, SetWin, id, now)
  }

  /**
   * `winner` wins a point. A paused or finished match is returned as it is;
   * otherwise exactly one event is appended (see `Stepped`).
   */
  function AddPoint(s: MatchState, winner: Side, id: string, now: int): (r: MatchState)
    requires Scorable(s, winner)
    ensures s.isMatchOver || s.isPaused ==> r == s
    ensures !(s.isMatchOver || s.isPaused) ==>
              |r.history| == |s.history| + 1 && Stepped(s, r, winner, LastEvent(r).kind, id, now)
  {
    if s.isMatchOver || s.isPaused then s
    else
      var resolution := ResolvePoint(s, winner);
      if !resolution.gameWon then PointEvent(s, resolution, winner, id, now)
      else
        var games := s.games.With(winner, s.games.Get(winner) + 1);
        var progress := MaybeFinishSet(games, winner, s.config.tieBreakAt, s.isTieBreak);
        if progress != SetOver then GameWinEvent(s, games, progress == StartTieBreak, winner, id, now)
        else
          var sets := WriteSlot(s.sets, s.currentSetIndex, games);
          var p1Wins := CountSetWins(sets, P1);
          var p2Wins := CountSetWins(sets, P2);
          if p1Wins >= s.config.setsToWin || p2Wins >= s.config.setsToWin then
            MatchWinEvent(s, sets, games, if p1Wins > p2Wins then P1 else P2, winner, id, now)
          else
            SetWinEvent(s, sets, winner, id, now)
  }
}
