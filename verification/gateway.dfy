/**
 * The pure part of the Firestore live-match gateway: the score line
 * written with every summary, club topic sanitising, the normalisation
 * of summary and realtime documents written by either client schema
 * (camelCase or snake_case), the ownership decision guarding writes, and
 * the documents a sync writes. Document reads and writes themselves are
 * not modelled; a document is the record of its fields.
 */
module FirebaseGateway {
  import opened MatchTypes
  import opened Precedence
  import opened Text
  import opened LiveSync

  // ---------------------------------------------------------------------
  // The score line

  /** One set or game score as "a-b". */
  function FormatScore(g: GameScore): (r: string)
    ensures |r| > 0
  {
    NatToString(g.p1) + "-" + NatToString(g.p2)
  }

  /** Scores rendered one by one and joined by ", " (the empty list gives ""). */
  function JoinScores(gs: seq<GameScore>): (r: string)
    ensures r == "" <==> gs == []
  {
    if |gs| == 0 then ""
    else if |gs| == 1 then FormatScore(gs[0])
    else FormatScore(gs[0]) + ", " + JoinScores(gs[1..])
  }

  /** Joining one more score puts it after a ", " (or alone when there were none). */
  lemma {:induction false} JoinScoresAppend(gs: seq<GameScore>, g: GameScore)
    ensures JoinScores(gs + [g]) == if gs == [] then FormatScore(g) else JoinScores(gs) + ", " + FormatScore(g)
  {
    if |gs| >= 2 {
      assert (gs + [g])[1..] == gs[1..] + [g];
      JoinScoresAppend(gs[1..], g);
    } else if |gs| == 1 {
      assert (gs + [g])[1..] == [g];
    }
  }

  /** The sets before the current one (a slice, so an index past the end takes them all). */
  function CompletedSets(s: MatchState): (sets: seq<SetScore>)
    ensures |sets| == if s.currentSetIndex <= |s.sets| then s.currentSetIndex else |s.sets|
    ensures sets == s.sets[..|sets|]
  {
    s.sets[..if s.currentSetIndex <= |s.sets| then s.currentSetIndex else |s.sets|]
  }

  /**
   * The one-line score of a match: every completed set and then the
   * current games, each as "a-b", separated by ", ". The slot of the
   * current set is not part of it.
   */
  function ToScoreSummary(s: MatchState): (r: string)
    ensures r == JoinScores(CompletedSets(s) + [s.games])
    ensures s.currentSetIndex == 0 ==> r == FormatScore(s.games)
  {
    var completed := JoinScores(CompletedSets(s));
    var current := FormatScore(s.games);
    JoinScoresAppend(CompletedSets(s), s.games);
    if completed != "" then completed + ", " + current else current
  }

  /** One "a-b" score read from the front of `text`, and what follows it. */
  function ParseScore(text: string): (r: Option<(GameScore, string)>)
    ensures r.Some? ==> |r.value.1| < |text|
  {
    match ReadNat(text)
    case None => None
    case Some((a, rest)) =>
      if |rest| > 0 && rest[0] == '-' then
        match ReadNat(rest[1..])
        case None => None
        case Some((b, tail)) => Some((GameScore(a, b), tail))
      else None
  }

  /** A whole score line read back into its scores. */
  function ParseScoreList(text: string): (r: Option<seq<GameScore>>)
    ensures r.Some? ==> |r.value| > 0
    decreases |text|
  {
    match ParseScore(text)
    case None => None
    case Some((g, rest)) =>
      if rest == "" then Some([g])
      else if |rest| >= 2 && rest[0] == ',' && rest[1] == ' ' then
        match ParseScoreList(rest[2..])
        case None => None
        case Some(gs) => Some([g] + gs)
      else None
  }

  /** A rendered score followed by a non-digit reads back as that score. */
  lemma ParseFormatScore(g: GameScore, tail: string)
    requires |tail| > 0 ==> !IsDigit(tail[0])
    ensures ParseScore(FormatScore(g) + tail) == Some((g, tail))
  {
    var second := NatToString(g.p2) + tail;
    assert FormatScore(g) + tail == NatToString(g.p1) + ("-" + second);
    ReadNatAfterNatToString(g.p1, "-" + second);
    assert ("-" + second)[1..] == second;
    ReadNatAfterNatToString(g.p2, tail);
  }

  /** A score followed by ", " and more text reads as that score in front of what the text reads as. */
  lemma ParseScoreListCons(g: GameScore, rest: string)
    ensures ParseScoreList(FormatScore(g) + (", " + rest))
            == if ParseScoreList(rest).Some? then Some([g] + ParseScoreList(rest).value) else None
  {
    ParseFormatScore(g, ", " + rest);
    assert (", " + rest)[2..] == rest;
  }

  /** Joined scores read back as the same scores. */
  lemma {:induction false} ParseJoinScores(gs: seq<GameScore>)
    requires |gs| > 0
    ensures ParseScoreList(JoinScores(gs)) == Some(gs)
  {
    if |gs| == 1 {
      assert JoinScores(gs) == FormatScore(gs[0]) + "";
      ParseFormatScore(gs[0], "");
      assert [gs[0]] == gs;
    } else {
      var rest := JoinScores(gs[1..]);
      assert JoinScores(gs) == FormatScore(gs[0]) + (", " + rest);
      ParseJoinScores(gs[1..]);
      ParseScoreListCons(gs[0], rest);
      assert [gs[0]] + gs[1..] == gs;
    }
  }

  /**
   * The score line is unambiguous: reading it back gives the completed
   * sets followed by the current games.
   */
  lemma ScoreSummaryRoundTrip(s: MatchState)
    ensures ParseScoreList(ToScoreSummary(s)) == Some(CompletedSets(s) + [s.games])
  {
    ParseJoinScores(CompletedSets(s) + [s.games]);
  }

  // ---------------------------------------------------------------------
  // Club topics

  /** The club topic as used in document paths: trimmed and lower-cased. */
  function SanitizeTopic(topic: string): (r: string)
    ensures |r| <= |topic|
    ensures forall i :: 0 <= i < |r| ==> !('A' <= r[i] <= 'Z')
    ensures |r| > 0 ==> !IsWhitespace(r[0]) && !IsWhitespace(r[|r| - 1])
    ensures r == "" <==> forall k :: 0 <= k < |topic| ==> IsWhitespace(topic[k])
  {
    TrimLower(topic)
  }

  /** Sanitising a sanitised topic changes nothing. */
  lemma SanitizeTopicIsIdempotent(topic: string)
    ensures SanitizeTopic(SanitizeTopic(topic)) == SanitizeTopic(topic)
  {
    TrimLowerIsIdempotent(topic);
  }

  // ---------------------------------------------------------------------
  // Documents as stored

  /** A stored value whose type is checked at run time: a string or anything else. */
  datatype RawValue = Text(text: string) | NotText

  /** The configuration map stored with a summary, with the snake_case colour keys of the web schema. */
  datatype RawConfig = RawConfig(rules: MatchConfig, p1_color: Option<RawValue>, p2_color: Option<RawValue>)

  /** A summary document as stored, under both schemas' field names. */
  datatype RawSummary = RawSummary(
    id: Option<string>,
    p1Name: Option<string>, p1_name: Option<string>,
    p2Name: Option<string>, p2_name: Option<string>,
    p1Color: Option<RawValue>, p1_color: Option<RawValue>, player1_color: Option<RawValue>,
    p2Color: Option<RawValue>, p2_color: Option<RawValue>, player2_color: Option<RawValue>,
    scoreSummary: Option<string>, score_summary: Option<string>,
    currentGames: Option<GameScore>, current_games: Option<GameScore>,
    currentSets: Option<seq<SetScore>>, current_sets: Option<seq<SetScore>>,
    server: Option<Side>,
    creatorUid: Option<string>, creator_uid: Option<string>,
    isDoubles: Option<bool>, is_doubles: Option<bool>,
    status: Option<RawValue>,
    durationSeconds: Option<int>, match_duration: Option<int>,
    startTime: Option<int>,
    isPaused: Option<bool>,
    config: Option<RawConfig>
  )

  /** A realtime score document as stored, under both schemas' field names. */
  datatype RawRealtime = RawRealtime(
    points: Option<PointScore>, current_points: Option<PointScore>,
    isTieBreak: Option<bool>, is_tie_break: Option<bool>,
    history: Option<seq<HistoryEvent>>
  )

  /** A string stored in an optional configuration field, as a stored value. */
  function AsRaw(v: Option<string>): (r: Option<RawValue>)
    ensures r.Some? <==> v.Some?
    ensures v.Some? ==> r.value == Text(v.value)
  {
    match v
    case Some(t) => Some(Text(t))
    case None => None
  }

  /**
   * Where one side's colour is looked for, in order: the camelCase,
   * snake_case and `playerN_color` summary fields, then the configuration's
   * camelCase and snake_case fields.
   */
  function ColourCandidates(raw: RawSummary, side: Side): (c: seq<Option<RawValue>>)
    ensures |c| == 5
  {
    var cfg := raw.config;
    if side == P1 then
      [raw.p1Color, raw.p1_color, raw.player1_color,
       if cfg.Some? then AsRaw(cfg.value.rules.p1Color) else None,
       if cfg.Some? then cfg.value.p1_color else None]
    else
      [raw.p2Color, raw.p2_color, raw.player2_color,
       if cfg.Some? then AsRaw(cfg.value.rules.p2Color) else None,
       if cfg.Some? then cfg.value.p2_color else None]
  }

  /** A stored colour is kept only when it is a string that is not blank. */
  function KeepColour(v: Option<RawValue>): (r: Option<string>)
    ensures r.Some? <==> v.Some? && v.value.Text? && Trim(v.value.text) != ""
    ensures r.Some? ==> r.value == v.value.text
  {
    if v.Some? && v.value.Text? && Trim(v.value.text) != "" then Some(v.value.text) else None
  }

  /**
   * `result` is what the first present candidate gives when kept only if
   * it is a non-blank string; nothing when every candidate is absent.
   */
  ghost predicate KeepsFirstColour(result: Option<string>, candidates: seq<Option<RawValue>>)
  {
    && ((forall i :: 0 <= i < |candidates| ==> candidates[i].None?) ==> result.None?)
    && forall i :: 0 <= i < |candidates| && candidates[i].Some? && (forall j :: 0 <= j < i ==> candidates[j].None?) ==>
         && (result.Some? <==> candidates[i].value.Text? && Trim(candidates[i].value.text) != "")
         && (result.Some? ==> result.value == candidates[i].value.text)
  }

  /** The colour a summary shows for one side. */
  function NormalizeColour(raw: RawSummary, side: Side): (r: Option<string>)
    ensures KeepsFirstColour(r, ColourCandidates(raw, side))
    ensures r.Some? ==> Trim(r.value) != ""
  {
    var candidates := ColourCandidates(raw, side);
    var first := FirstPresent(candidates);
    assert forall i :: 0 <= i < |candidates| && candidates[i].Some? && (forall j :: 0 <= j < i ==> candidates[j].None?) ==>
             first == candidates[i];
    KeepColour(first)
  }

  /**
   * A summary document as a typed summary: each field from its camelCase
   * key, else its snake_case key, else a default ("Player 1"/"Player 2",
   * "0-0", 0-0 games, no sets, P1 serving, no owner, singles, 0 seconds,
   * `now`, not paused); colours as `NormalizeColour` says; status finished
   * exactly when the stored status is the string "FINISHED".
   */
  function NormalizeSummary(raw: RawSummary, docId: string, now: int): (r: LiveMatchSummary)
    ensures r.Complete()
    ensures raw.id.Some? ==> r.id == raw.id.value
    ensures raw.id.None? ==> r.id == docId
    ensures raw.p1Name.Some? ==> r.p1Name == raw.p1Name
    ensures raw.p1Name.None? && raw.p1_name.Some? ==> r.p1Name == raw.p1_name
    ensures raw.p1Name.None? && raw.p1_name.None? ==> r.p1Name == Some("Player 1")
    ensures raw.p2Name.Some? ==> r.p2Name == raw.p2Name
    ensures raw.p2Name.None? && raw.p2_name.Some? ==> r.p2Name == raw.p2_name
    ensures raw.p2Name.None? && raw.p2_name.None? ==> r.p2Name == Some("Player 2")
    ensures KeepsFirstColour(r.p1Color, ColourCandidates(raw, P1))
    ensures KeepsFirstColour(r.p2Color, ColourCandidates(raw, P2))
    ensures r.scoreSummary == Pick(raw.scoreSummary, raw.score_summary, "0-0")
    ensures r.currentGames == Some(Pick(raw.currentGames, raw.current_games, NoGames))
    ensures r.currentSets == Some(Pick(raw.currentSets, raw.current_sets, []))
    ensures raw.server.Some? ==> r.server == raw.server.value
    ensures raw.server.None? ==> r.server == P1
    ensures r.creatorUid == Pick(raw.creatorUid, raw.creator_uid, "")
    ensures r.isDoubles == Pick(raw.isDoubles, raw.is_doubles, false)
    ensures r.status == Finished <==> raw.status == Some(Text("FINISHED"))
    ensures raw.durationSeconds.Some? ==> r.durationSeconds == raw.durationSeconds
    ensures raw.durationSeconds.None? && raw.match_duration.Some? ==> r.durationSeconds == raw.match_duration
    ensures raw.durationSeconds.None? && raw.match_duration.None? ==> r.durationSeconds == Some(0)
    ensures raw.startTime.Some? ==> r.startTime == raw.startTime
    ensures raw.startTime.None? ==> r.startTime == Some(now)
    ensures r.isPaused.Some? && (r.isPaused.value <==> raw.isPaused == Some(true))
    ensures raw.config.Some? <==> r.config.Some?
    ensures raw.config.Some? ==> r.config.value == raw.config.value.rules
  {
    LiveMatchSummary(
      id := raw.id.GetOr(docId),
      p1Name := Some(Pick(raw.p1Name, raw.p1_name, "Player 1")),
      p2Name := Some(Pick(raw.p2Name, raw.p2_name, "Player 2")),
      p1Color := NormalizeColour(raw, P1),
      p2Color := NormalizeColour(raw, P2),
      scoreSummary := Pick(raw.scoreSummary, raw.score_summary, "0-0"),
      currentGames := Some(Pick(raw.currentGames, raw.current_games, NoGames)),
      currentSets := Some(Pick(raw.currentSets, raw.current_sets, [])),
      server := raw.server.GetOr(P1),
      creatorUid := Pick(raw.creatorUid, raw.creator_uid, ""),
      isDoubles := Pick(raw.isDoubles, raw.is_doubles, false),
      status := if raw.status == Some(Text("FINISHED")) then Finished else Live,
      durationSeconds := Some(Pick(raw.durationSeconds, raw.match_duration, 0)),
      startTime := Some(raw.startTime.GetOr(now)),
      isPaused := Some(raw.isPaused.GetOr(false)),
      config := if raw.config.Some? then Some(raw.config.value.rules) else None
    )
  }

  /** A realtime document as a typed fragment: camelCase key, else snake_case key, else "0"/"0", false, no events. */
  function NormalizeRealtime(raw: RawRealtime): (r: MatchRealtimeData)
    ensures raw.points.Some? ==> r.points == raw.points.value
    ensures raw.points.None? && raw.current_points.Some? ==> r.points == raw.current_points.value
    ensures raw.points.None? && raw.current_points.None? ==> r.points == LadderZeros
    ensures raw.isTieBreak.Some? ==> r.isTieBreak == raw.isTieBreak.value
    ensures raw.isTieBreak.None? && raw.is_tie_break.Some? ==> r.isTieBreak == raw.is_tie_break.value
    ensures raw.isTieBreak.None? && raw.is_tie_break.None? ==> !r.isTieBreak
    ensures raw.history.Some? ==> r.history == raw.history.value
    ensures raw.history.None? ==> r.history == []
  {
    MatchRealtimeData(
      points := Pick(raw.points, raw.current_points, LadderZeros),
      isTieBreak := Pick(raw.isTieBreak, raw.is_tie_break, false),
      history := raw.history.GetOr([]))
  }

  // ---------------------------------------------------------------------
  // Ownership

  /** The owner recorded on a summary document ("" when none is recorded). */
  /**
   * The uid a summary document records as its creator: the camel-case
   * field, else the snake-case one, else "" (no recorded owner).
   */
  function OwnerOf(document: RawSummary): (r: string)
    ensures document.creatorUid.Some? ==> r == document.creatorUid.value
    ensures document.creatorUid.None? && document.creator_uid.Some? ==> r == document.creator_uid.value
    ensures r == "" <==> (document.creatorUid.Some? && document.creatorUid.value == "")
                         || (document.creatorUid.None? && document.creator_uid in {None, Some("")})
  {
    Pick(document.creatorUid, document.creator_uid, "")
  }

  datatype Access = Granted | Denied(reason: string)

  /**
   * Whether `actorUid` may overwrite or delete a match: yes when there is
   * no summary document, when it records no owner, or when the actor is
   * the owner; otherwise the request is refused as an owner mismatch.
   */
  function CheckOwnership(document: Option<RawSummary>, actorUid: string): (r: Access)
    ensures document.None? ==> r == Granted
    ensures document.Some? && document.value.creatorUid.Some? ==>
              (r == Granted <==> document.value.creatorUid.value in {"", actorUid})
    ensures document.Some? && document.value.creatorUid.None? && document.value.creator_uid.Some? ==>
              (r == Granted <==> document.value.creator_uid.value in {"", actorUid})
    ensures document.Some? && document.value.creatorUid.None? && document.value.creator_uid.None? ==> r == Granted
    ensures r.Denied? ==> r.reason == "forbidden-owner-mismatch"
  {
    match document
    case None => Granted
    case Some(d) =>
      var owner := OwnerOf(d);
      if owner != "" && owner != actorUid then Denied("forbidden-owner-mismatch") else Granted
  }

  // ---------------------------------------------------------------------
  // What a sync writes

  /**
   * The summary document a sync of `s` writes, with every field under both
   * schemas' names: the same value under each name, colours defaulting to
   * "blue" and "red", the score line of `s`, and the rules configuration
   * without web colour keys.
   */
  function SummaryDocument(matchId: string, s: MatchState, creatorUid: string): (d: RawSummary)
    ensures OwnerOf(d) == creatorUid
    ensures d.creatorUid == d.creator_uid == Some(creatorUid)
    ensures d.id == Some(matchId) && d.server == Some(s.server)
    ensures d.p1Name == d.p1_name == Some(s.config.p1Name)
    ensures d.p2Name == d.p2_name == Some(s.config.p2Name)
    ensures d.p1Color == d.p1_color == d.player1_color == Some(Text(s.config.p1Color.GetOr("blue")))
    ensures d.p2Color == d.p2_color == d.player2_color == Some(Text(s.config.p2Color.GetOr("red")))
    ensures d.scoreSummary == d.score_summary == Some(ToScoreSummary(s))
    ensures d.currentGames == d.current_games == Some(s.games)
    ensures d.currentSets == d.current_sets == Some(s.sets)
    ensures d.isDoubles == d.is_doubles == Some(s.config.mode == Doubles)
    ensures d.status == Some(Text(if s.isMatchOver then "FINISHED" else "LIVE"))
    ensures d.durationSeconds == d.match_duration == Some(s.durationSeconds)
    ensures d.startTime == Some(s.startTime) && d.isPaused == Some(s.isPaused)
    ensures d.config == Some(RawConfig(s.config, None, None))
  {
    var c1 := Text(s.config.p1Color.GetOr("blue"));
    var c2 := Text(s.config.p2Color.GetOr("red"));
    var line := ToScoreSummary(s);
    RawSummary(
      id := Some(matchId),
      p1Name := Some(s.config.p1Name), p1_name := Some(s.config.p1Name),
      p2Name := Some(s.config.p2Name), p2_name := Some(s.config.p2Name),
      p1Color := Some(c1), p1_color := Some(c1), player1_color := Some(c1),
      p2Color := Some(c2), p2_color := Some(c2), player2_color := Some(c2),
      scoreSummary := Some(line), score_summary := Some(line),
      currentGames := Some(s.games), current_games := Some(s.games),
      currentSets := Some(s.sets), current_sets := Some(s.sets),
      server := Some(s.server),
      creatorUid := Some(creatorUid), creator_uid := Some(creatorUid),
      isDoubles := Some(s.config.mode == Doubles), is_doubles := Some(s.config.mode == Doubles),
      status := Some(Text(if s.isMatchOver then "FINISHED" else "LIVE")),
      durationSeconds := Some(s.durationSeconds), match_duration := Some(s.durationSeconds),
      startTime := Some(s.startTime),
      isPaused := Some(s.isPaused),
      config := Some(RawConfig(s.config, None, None))
    )
  }

  /** The realtime document a sync of `s` writes. */
  function RealtimeDocument(s: MatchState): (d: RawRealtime)
    ensures d.points == d.current_points == Some(s.points)
    ensures d.isTieBreak == d.is_tie_break == Some(s.isTieBreak)
    ensures d.history == Some(s.history)
  {
    RawRealtime(Some(s.points), Some(s.points), Some(s.isTieBreak), Some(s.isTieBreak), Some(s.history))
  }

  /**
   * After a sync only its author may overwrite or delete the match (a
   * sync always names a non-empty author).
   */
  lemma OnlyTheSyncAuthorMayWrite(matchId: string, s: MatchState, creatorUid: string, actorUid: string)
    requires creatorUid != ""
    ensures CheckOwnership(Some(SummaryDocument(matchId, s, creatorUid)), actorUid) == Granted
            <==> actorUid == creatorUid
  {
  }

  /**
   * Resuming a synced match: normalising the two documents a sync of `s`
   * writes and reconstructing from them gives `s` back, except that the
   * match id is the document's, the winner is dropped, no switch of ends
   * is pending, a missing colour reads as the default blue/red, and a
   * missing partner name is taken from the fallback configuration.
   */
  lemma ResumeAfterSync(matchId: string, s: MatchState, creatorUid: string, fallback: MatchConfig, now: int)
    requires |s.sets| == s.currentSetIndex + 1
    ensures var summary := NormalizeSummary(SummaryDocument(matchId, s, creatorUid), matchId, now);
            var fragment := NormalizeRealtime(RealtimeDocument(s));
            ReconstructMatchState(summary, Some(fragment), fallback, now)
              == s.(matchId := Some(matchId), winner := None, shouldSwitchSides := false,
                    config := s.config.(p1Color := Some(s.config.p1Color.GetOr("blue")),
                                        p2Color := Some(s.config.p2Color.GetOr("red")),
                                        p1PartnerName := Coalesce(s.config.p1PartnerName, fallback.p1PartnerName),
                                        p2PartnerName := Coalesce(s.config.p2PartnerName, fallback.p2PartnerName)))
  {
    var d := SummaryDocument(matchId, s, creatorUid);
    var summary := NormalizeSummary(d, matchId, now);
    SyncedSummary(matchId, s, creatorUid, now);
    SyncedConfig(summary, s.config, fallback);
  }

  /** The typed summary read back from a synced summary document. */
  lemma SyncedSummary(matchId: string, s: MatchState, creatorUid: string, now: int)
    ensures var summary := NormalizeSummary(SummaryDocument(matchId, s, creatorUid), matchId, now);
            && summary.id == matchId && summary.server == s.server
            && summary.p1Name == Some(s.config.p1Name) && summary.p2Name == Some(s.config.p2Name)
            && summary.p1Color == KeepColour(Some(Text(s.config.p1Color.GetOr("blue"))))
            && summary.p2Color == KeepColour(Some(Text(s.config.p2Color.GetOr("red"))))
            && summary.currentGames == Some(s.games) && summary.currentSets == Some(s.sets)
            && (summary.status == Finished <==> s.isMatchOver)
            && summary.durationSeconds == Some(s.durationSeconds) && summary.startTime == Some(s.startTime)
            && summary.isPaused == Some(s.isPaused) && summary.config == Some(s.config)
  {
    var d := SummaryDocument(matchId, s, creatorUid);
    assert ColourCandidates(d, P1)[0] == d.p1Color;
    assert ColourCandidates(d, P2)[0] == d.p2Color;
  }

  /**
   * Reconstructing from a summary that embeds `config` and shows the
   * colours a sync writes gives `config` back, with a missing colour read
   * as blue/red and a missing partner name taken from the fallback.
   */
  lemma SyncedConfig(summary: LiveMatchSummary, config: MatchConfig, fallback: MatchConfig)
    requires summary.p1Name == Some(config.p1Name) && summary.p2Name == Some(config.p2Name)
    requires summary.p1Color == KeepColour(Some(Text(config.p1Color.GetOr("blue"))))
    requires summary.p2Color == KeepColour(Some(Text(config.p2Color.GetOr("red"))))
    requires summary.config == Some(config)
    ensures ResolveConfig(summary, fallback)
            == config.(p1Color := Some(config.p1Color.GetOr("blue")), p2Color := Some(config.p2Color.GetOr("red")),
                       p1PartnerName := Coalesce(config.p1PartnerName, fallback.p1PartnerName),
                       p2PartnerName := Coalesce(config.p2PartnerName, fallback.p2PartnerName))
  {
    DefaultColoursAreNotBlank();
    var c := ResolveConfig(summary, fallback);
    assert c.p1Color == Some(config.p1Color.GetOr("blue")) by {
      var v := config.p1Color.GetOr("blue");
      if Trim(v) == "" {
        assert config.p1Color.Some? && summary.p1Color.None?;
      }
    }
    assert c.p2Color == Some(config.p2Color.GetOr("red")) by {
      var v := config.p2Color.GetOr("red");
      if Trim(v) == "" {
        assert config.p2Color.Some? && summary.p2Color.None?;
      }
    }
  }

  /** The default colours a sync writes are not blank. */
  lemma DefaultColoursAreNotBlank()
    ensures Trim("blue") != "" && Trim("red") != ""
  {
    assert !IsWhitespace("blue"[0]) && !IsWhitespace("red"[0]);
  }
}
