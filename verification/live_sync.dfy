/**
 * The records the live-sync layer exchanges (a match summary, its
 * realtime score fragment, and the pair a resumed match is rebuilt from)
 * and the reconstruction of a match state from them.
 */
module LiveSync {
  import opened MatchTypes
  import opened Precedence

  datatype MatchStatus = Live | Finished

  /**
   * The public summary of a match. The fields the reconstruction guards
   * with a fallback (names, games, sets, clock and pause flag) are
   * optional here so that those guards are modelled; `Complete` says when
   * they are all present, which is what the declared record promises.
   */
  datatype LiveMatchSummary = LiveMatchSummary(
    id: string,
    p1Name: Option<string>,
    p2Name: Option<string>,
    p1Color: Option<string>,
    p2Color: Option<string>,
    scoreSummary: string,
    currentGames: Option<GameScore>,
    currentSets: Option<seq<SetScore>>,
    server: Side,
    creatorUid: string,
    isDoubles: bool,
    status: MatchStatus,
    durationSeconds: Option<int>,
    startTime: Option<int>,
    isPaused: Option<bool>,
    config: Option<MatchConfig>
  )
  {
    /** Every field the declared summary record requires is present. */
    predicate Complete()
    {
      && p1Name.Some? && p2Name.Some? && currentGames.Some? && currentSets.Some?
      && durationSeconds.Some? && startTime.Some? && isPaused.Some?
    }
  }

  /** The fast-changing part of a match: points, tie-break flag and event history. */
  datatype MatchRealtimeData = MatchRealtimeData(
    points: PointScore,
    isTieBreak: bool,
    history: seq<HistoryEvent>
  )

  /** What a match is resumed from: its summary and its realtime fragment. */
  datatype ResumableMatchData = ResumableMatchData(
    summary: LiveMatchSummary,
    realtime: MatchRealtimeData
  )

  /** The sets a summary describes: its own when it has any, else one 0-0 set. */
  function SummarySets(summary: LiveMatchSummary): (sets: seq<SetScore>)
    ensures |sets| >= 1
    ensures summary.currentSets.Some? && |summary.currentSets.value| > 0 ==> sets == summary.currentSets.value
    ensures summary.currentSets.None? || |summary.currentSets.value| == 0 ==> sets == [NoGames]
  {
    if summary.currentSets.Some? && |summary.currentSets.value| > 0 then summary.currentSets.value
    else [NoGames]
  }

  /**
   * The configuration of a reconstructed match: the summary's embedded
   * configuration laid over the fallback, with each name and colour
   * taken from the summary, else the embedded configuration, else the
   * fallback.
   */
  function ResolveConfig(summary: LiveMatchSummary, fallback: MatchConfig): (c: MatchConfig)
    ensures summary.p1Name.Some? ==> c.p1Name == summary.p1Name.value
    ensures summary.p1Name.None? && summary.config.Some? ==> c.p1Name == summary.config.value.p1Name
    ensures summary.p1Name.None? && summary.config.None? ==> c.p1Name == fallback.p1Name
    ensures summary.p2Name.Some? ==> c.p2Name == summary.p2Name.value
    ensures summary.p2Name.None? && summary.config.Some? ==> c.p2Name == summary.config.value.p2Name
    ensures summary.p2Name.None? && summary.config.None? ==> c.p2Name == fallback.p2Name
    ensures summary.p1Color.Some? ==> c.p1Color == summary.p1Color
    ensures summary.p1Color.None? && summary.config.Some? && summary.config.value.p1Color.Some? ==>
              c.p1Color == summary.config.value.p1Color
    ensures summary.p1Color.None? && (summary.config.None? || summary.config.value.p1Color.None?) ==>
              c.p1Color == fallback.p1Color
    ensures summary.p2Color.Some? ==> c.p2Color == summary.p2Color
    ensures summary.p2Color.None? && summary.config.Some? && summary.config.value.p2Color.Some? ==>
              c.p2Color == summary.config.value.p2Color
    ensures summary.p2Color.None? && (summary.config.None? || summary.config.value.p2Color.None?) ==>
              c.p2Color == fallback.p2Color
    ensures var rules := summary.config.GetOr(fallback);
            && c.setsToWin == rules.setsToWin && c.useAdvantage == rules.useAdvantage
            && c.finalSetType == rules.finalSetType && c.tieBreakAt == rules.tieBreakAt
            && c.tieBreakPoints == rules.tieBreakPoints && c.mode == rules.mode
    ensures summary.config.Some? && summary.config.value.p1PartnerName.Some? ==>
              c.p1PartnerName == summary.config.value.p1PartnerName
    ensures summary.config.None? || summary.config.value.p1PartnerName.None? ==>
              c.p1PartnerName == fallback.p1PartnerName
    ensures summary.config.Some? && summary.config.value.p2PartnerName.Some? ==>
              c.p2PartnerName == summary.config.value.p2PartnerName
    ensures summary.config.None? || summary.config.value.p2PartnerName.None? ==>
              c.p2PartnerName == fallback.p2PartnerName
  {
    var cfg := summary.config;
    var rules := cfg.GetOr(fallback);
    rules.(
      p1Name := Pick(summary.p1Name, if cfg.Some? then Some(cfg.value.p1Name) else None, fallback.p1Name),
      p2Name := Pick(summary.p2Name, if cfg.Some? then Some(cfg.value.p2Name) else None, fallback.p2Name),
      p1Color := Coalesce(summary.p1Color, Coalesce(if cfg.Some? then cfg.value.p1Color else None, fallback.p1Color)),
      p2Color := Coalesce(summary.p2Color, Coalesce(if cfg.Some? then cfg.value.p2Color else None, fallback.p2Color)),
      p1PartnerName := Coalesce(if cfg.Some? then cfg.value.p1PartnerName else None, fallback.p1PartnerName),
      p2PartnerName := Coalesce(if cfg.Some? then cfg.value.p2PartnerName else None, fallback.p2PartnerName))
  }

  /**
   * Rebuilds a match state from a summary, an optional realtime fragment
   * and a fallback configuration; `now` stands for the clock reading used
   * when the summary has no start time. The winner is not recovered and
   * no switch of ends is pending.
   */
  function ReconstructMatchState(summary: LiveMatchSummary, realtime: Option<MatchRealtimeData>,
                                 fallback: MatchConfig, now: int): (r: MatchState)
    ensures r.matchId == Some(summary.id) && r.server == summary.server
    ensures r.config == ResolveConfig(summary, fallback)
    ensures r.sets == SummarySets(summary) && |r.sets| == r.currentSetIndex + 1
    ensures summary.currentGames.Some? ==> r.games == summary.currentGames.value
    ensures summary.currentGames.None? ==> r.games == NoGames
    ensures summary.startTime.Some? ==> r.startTime == summary.startTime.value
    ensures summary.startTime.None? ==> r.startTime == now
    ensures summary.durationSeconds.Some? ==> r.durationSeconds == summary.durationSeconds.value
    ensures summary.durationSeconds.None? ==> r.durationSeconds == 0
    ensures r.isPaused <==> summary.isPaused == Some(true)
    ensures r.isMatchOver <==> summary.status == Finished
    ensures r.winner == None && !r.shouldSwitchSides
    ensures realtime.Some? ==> && r.points == realtime.value.points
                               && r.isTieBreak == realtime.value.isTieBreak
                               && r.history == realtime.value.history
    ensures realtime.None? ==> r.points == LadderZeros && !r.isTieBreak && r.history == []
  {
    var sets := SummarySets(summary);
    MatchState(
      matchId := Some(summary.id),
      config := ResolveConfig(summary, fallback),
      startTime := summary.startTime.GetOr(now),
      durationSeconds := summary.durationSeconds.GetOr(0),
      isPaused := summary.isPaused.GetOr(false),
      isMatchOver := summary.status == Finished,
      winner := None,
      currentSetIndex := if |sets| - 1 > 0 then |sets| - 1 else 0,
      sets := sets,
      games := summary.currentGames.GetOr(NoGames),
      points := if realtime.Some? then realtime.value.points else LadderZeros,
      isTieBreak := if realtime.Some? then realtime.value.isTieBreak else false,
      shouldSwitchSides := false,
      server := summary.server,
      history := if realtime.Some? then realtime.value.history else []
    )
  }
}
