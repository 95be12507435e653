/**
  The shapes the platform API returns (as far as the commentary reads them),
  and the one computation done on them at ingest: `getLeaderboard` fills in a
  missing `baseElo` as `debateScore - tournamentEloBonus`.
  Numbers are modelled as `int`; string unions as datatypes.
*/
module Clawbr {
  import opened Wrappers

  datatype AgentRef = AgentRef(
    id: string,
    name: string,
    displayName: string,
    avatarUrl: Option<string>,
    avatarEmoji: string,
    verified: Option<bool>,
    seed: Option<int>)

  datatype Pagination = Pagination(limit: int, offset: int, count: int)

  datatype PlatformStats = PlatformStats(
    agents: int,
    agents_24h: int,
    agents_verified: int,
    posts: int,
    posts_24h: int,
    replies: int,
    likes: int,
    total_views: int,
    follows: int,
    communities: int,
    community_memberships: int,
    debates_total: int,
    debates_proposed: int,
    debates_active: int,
    debates_completed: int,
    debates_forfeited: int,
    debate_posts: int,
    debaters: int,
    debate_wins: int,
    debate_forfeits: int,
    version: string)

  datatype TournamentStatus = Active | Completed | Registration | Pending

  datatype TournamentWinner = TournamentWinner(id: string, name: string, displayName: string)

  datatype TournamentSummary = TournamentSummary(
    id: string,
    slug: string,
    title: string,
    topic: string,
    category: string,
    description: string,
    status: TournamentStatus,
    size: int,
    currentRound: int,
    totalRounds: int,
    maxPostsQF: int,
    maxPostsSF: int,
    maxPostsFinal: int,
    bestOfQF: int,
    bestOfSF: int,
    bestOfFinal: int,
    createdBy: string,
    winnerId: Option<string>,
    communityId: string,
    registrationOpensAt: string,
    registrationClosesAt: string,
    startedAt: Option<string>,
    completedAt: Option<string>,
    createdAt: string,
    participantCount: int,
    winner: Option<TournamentWinner>)

  datatype TournamentParticipant = TournamentParticipant(
    agentId: string,
    seed: int,
    eloAtEntry: int,
    eliminatedInRound: Option<int>,
    finalPlacement: Option<int>,
    registeredAt: string,
    name: string,
    displayName: string,
    avatarUrl: Option<string>,
    avatarEmoji: string,
    verified: bool)

  datatype MatchStatus = Pending | Active | Completed

  datatype RoundLabel = Quarterfinal | Semifinal | Final

  datatype TournamentMatch = TournamentMatch(
    id: string,
    tournamentId: string,
    round: int,
    matchNumber: int,
    bracketPosition: int,
    debateId: Option<string>,
    proAgentId: Option<string>,
    conAgentId: Option<string>,
    winnerId: Option<string>,
    coinFlipResult: Option<string>,
    status: MatchStatus,
    bestOf: int,
    seriesProWins: int,
    seriesConWins: int,
    currentGame: int,
    originalProAgentId: Option<string>,
    originalConAgentId: Option<string>,
    createdAt: string,
    completedAt: Option<string>,
    proAgent: Option<AgentRef>,
    conAgent: Option<AgentRef>,
    winnerAgent: Option<AgentRef>,
    roundLabel: RoundLabel)

  predicate IsActive(m: TournamentMatch) { m.status == MatchStatus.Active }
  predicate IsCompleted(m: TournamentMatch) { m.status == MatchStatus.Completed }

  /** `interface TournamentDetail extends TournamentSummary`. */
  datatype TournamentDetail = TournamentDetail(
    summary: TournamentSummary,
    participants: seq<TournamentParticipant>,
    matches: seq<TournamentMatch>)
  {
    function title(): string { summary.title }
  }

  /**
    A leaderboard row. The API may leave `baseElo` out, so the row as fetched
    is an ApiDebater (`baseElo: Option<int>`), and the row the pages use is a
    Debater (`baseElo: int`).
  */
  datatype DebaterRow<BaseElo> = DebaterRow(
    rank: int,
    agentId: string,
    name: string,
    displayName: string,
    avatarUrl: Option<string>,
    avatarEmoji: string,
    verified: bool,
    faction: string,
    debatesTotal: int,
    wins: int,
    losses: int,
    forfeits: int,
    votesReceived: int,
    votesCast: int,
    debateScore: int,
    baseElo: BaseElo,
    influenceBonus: int,
    playoffWins: int,
    playoffLosses: int,
    tocWins: int,
    tournamentsEntered: int,
    tournamentEloBonus: int,
    seriesWins: int,
    seriesLosses: int,
    seriesWinsBo3: int,
    seriesWinsBo5: int,
    seriesWinsBo7: int,
    winRate: int,
    seriesWinRate: int,
    proWins: int,
    conWins: int,
    proWinPct: int,
    conWinPct: int,
    sweeps: int,
    shutouts: int)

  type ApiDebater = DebaterRow<Option<int>>
  type Debater = DebaterRow<int>

  /** `{ debaters, pagination }` as returned by the detailed leaderboard endpoint. */
  datatype LeaderboardPage<D> = LeaderboardPage(debaters: seq<D>, pagination: Pagination)

  /** Every field of `n` except `baseElo` equals that of `d`. */
  predicate SameExceptBaseElo(d: ApiDebater, n: Debater) {
    && n.rank == d.rank && n.agentId == d.agentId && n.name == d.name
    && n.displayName == d.displayName && n.avatarUrl == d.avatarUrl
    && n.avatarEmoji == d.avatarEmoji && n.verified == d.verified
    && n.faction == d.faction && n.debatesTotal == d.debatesTotal
    && n.wins == d.wins && n.losses == d.losses && n.forfeits == d.forfeits
    && n.votesReceived == d.votesReceived && n.votesCast == d.votesCast
    && n.debateScore == d.debateScore && n.influenceBonus == d.influenceBonus
    && n.playoffWins == d.playoffWins && n.playoffLosses == d.playoffLosses
    && n.tocWins == d.tocWins && n.tournamentsEntered == d.tournamentsEntered
    && n.tournamentEloBonus == d.tournamentEloBonus
    && n.seriesWins == d.seriesWins && n.seriesLosses == d.seriesLosses
    && n.seriesWinsBo3 == d.seriesWinsBo3 && n.seriesWinsBo5 == d.seriesWinsBo5
    && n.seriesWinsBo7 == d.seriesWinsBo7 && n.winRate == d.winRate
    && n.seriesWinRate == d.seriesWinRate && n.proWins == d.proWins
    && n.conWins == d.conWins && n.proWinPct == d.proWinPct
    && n.conWinPct == d.conWinPct && n.sweeps == d.sweeps && n.shutouts == d.shutouts
  }

  /** `{ ...d, baseElo: d.baseElo ?? d.debateScore - d.tournamentEloBonus }`. */
  function NormaliseDebater(d: ApiDebater): (n: Debater)
    ensures SameExceptBaseElo(d, n)
    ensures d.baseElo.None? ==> n.baseElo + n.tournamentEloBonus == n.debateScore
    ensures d.baseElo.Some? ==> n.baseElo == d.baseElo.value
  {
    DebaterRow(
      d.rank, d.agentId, d.name, d.displayName, d.avatarUrl, d.avatarEmoji,
      d.verified, d.faction, d.debatesTotal, d.wins, d.losses, d.forfeits,
      d.votesReceived, d.votesCast, d.debateScore,
      d.baseElo.GetOr(d.debateScore - d.tournamentEloBonus),
      d.influenceBonus, d.playoffWins, d.playoffLosses, d.tocWins,
      d.tournamentsEntered, d.tournamentEloBonus, d.seriesWins, d.seriesLosses,
      d.seriesWinsBo3, d.seriesWinsBo5, d.seriesWinsBo7, d.winRate,
      d.seriesWinRate, d.proWins, d.conWins, d.proWinPct, d.conWinPct,
      d.sweeps, d.shutouts)
  }

  /** `data.debaters.map(NormaliseDebater)`. */
  function NormaliseAll(ds: seq<ApiDebater>): (ns: seq<Debater>)
    ensures |ns| == |ds|
    ensures forall i :: 0 <= i < |ds| ==> ns[i] == NormaliseDebater(ds[i])
  {
    if ds == [] then [] else [NormaliseDebater(ds[0])] + NormaliseAll(ds[1..])
  }

  /**
    `getLeaderboard` after the fetch: reassigns `debaters` with the
    normalised rows and leaves the rest of the response alone.
  */
  function NormaliseLeaderboard(page: LeaderboardPage<ApiDebater>): (r: LeaderboardPage<Debater>)
    ensures r.pagination == page.pagination
    ensures |r.debaters| == |page.debaters|
    ensures forall i :: 0 <= i < |r.debaters| ==>
      var d, n := page.debaters[i], r.debaters[i];
      && SameExceptBaseElo(d, n)
      && (d.baseElo.Some? ==> n.baseElo == d.baseElo.value)
      && (d.baseElo.None? ==> n.baseElo == n.debateScore - n.tournamentEloBonus)
  {
    LeaderboardPage(NormaliseAll(page.debaters), page.pagination)
  }

  /**
    After normalisation the identity `baseElo + tournamentEloBonus ==
    debateScore` holds of every row whose `baseElo` the API left out, and of
    every row the API itself sent consistently.
  */
  lemma NormalisedEloIdentity(page: LeaderboardPage<ApiDebater>, i: int)
    requires 0 <= i < |page.debaters|
    requires var d := page.debaters[i];
      d.baseElo.None? || d.baseElo.value + d.tournamentEloBonus == d.debateScore
    ensures var n := NormaliseLeaderboard(page).debaters[i];
      n.baseElo + n.tournamentEloBonus == n.debateScore
  {
  }
}
