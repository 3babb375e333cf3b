/**
 * The match data model: sides, point labels, the rules configuration,
 * two-sided tallies, history events and the match state aggregate.
 */
module MatchTypes {

  /** An optional value; `None` stands for both `undefined` and `null`. */
  datatype Option<+T> = None | Some(value: T)
  {
    /** The value if present, otherwise `default` (the `??` operator). */
    function GetOr(default: T): T
    {
      match this
      case Some(v) => v
      case None => default
    }
  }

  /** The two sides of a match. */
  datatype Side = P1 | P2
  {
    function Other(): (o: Side)
      ensures o != this
    {
      if this == P1 then P2 else P1
    }
  }

  /**
   * A point label: the standard ladder "0", "15", "30", "40", "Ad",
   * or a number while a tie-break is played.
   */
  datatype PointLabel = Zero | Fifteen | Thirty | Forty | Ad | Num(n: nat)
  {
    predicate IsLadder()
    {
      !Num?
    }
  }

  datatype FinalSetType = Standard | SuperTieBreak

  datatype Mode = Singles | Doubles

  /** The number of sets a side needs: 1, 2 or 3. */
  type SetsToWin = n: int | 1 <= n <= 3 witness 1

  datatype MatchConfig = MatchConfig(
    p1Name: string,
    p2Name: string,
    p1Color: Option<string>,
    p2Color: Option<string>,
    setsToWin: SetsToWin,
    useAdvantage: bool,
    finalSetType: FinalSetType,
    tieBreakAt: int,
    tieBreakPoints: int,
    mode: Mode,
    p1PartnerName: Option<string>,
    p2PartnerName: Option<string>
  )

  /** Games per side: the current game score, and the shape of one set's score. */
  datatype GameScore = GameScore(p1: nat, p2: nat)
  {
    function Get(side: Side): nat
    {
      if side == P1 then p1 else p2
    }

    function With(side: Side, v: nat): (g: GameScore)
      ensures g.Get(side) == v && g.Get(side.Other()) == Get(side.Other())
    {
      if side == P1 then this.(p1 := v) else this.(p2 := v)
    }

    function Total(): nat
    {
      p1 + p2
    }
  }

  type SetScore = GameScore

  /** A point label per side. */
  datatype PointScore = PointScore(p1: PointLabel, p2: PointLabel)
  {
    function Get(side: Side): PointLabel
    {
      if side == P1 then p1 else p2
    }

    function With(side: Side, v: PointLabel): (p: PointScore)
      ensures p.Get(side) == v && p.Get(side.Other()) == Get(side.Other())
    {
      if side == P1 then this.(p1 := v) else this.(p2 := v)
    }
  }

  const LadderZeros := PointScore(Zero, Zero)
  const NumericZeros := PointScore(Num(0), Num(0))
  const NoGames := GameScore(0, 0)

  datatype EventKind = Point | GameWin | SetWin | MatchWin

  /** The score fields of a state, as recorded with every history event. */
  datatype Snapshot = Snapshot(
    sets: seq<SetScore>,
    games: GameScore,
    points: PointScore,
    isTieBreak: bool
  )

  datatype HistoryEvent = HistoryEvent(
    id: string,
    timestamp: int,
    kind: EventKind,
    winnerId: Side,
    sideSwitchAfter: Option<bool>,
    snapshot: Snapshot
  )

  datatype MatchState = MatchState(
    matchId: Option<string>,
    config: MatchConfig,
    startTime: int,
    durationSeconds: int,
    isPaused: bool,
    isMatchOver: bool,
    winner: Option<Side>,
    currentSetIndex: nat,
    sets: seq<SetScore>,
    games: GameScore,
    points: PointScore,
    isTieBreak: bool,
    shouldSwitchSides: bool,
    server: Side,
    history: seq<HistoryEvent>
  )
  {
    /** The score fields, in the shape a history event records them. */
    function Score(): Snapshot
    {
      Snapshot(sets, games, points, isTieBreak)
    }
  }
}
