/**
  What `buildPrompt` selects from its input; the prose around the
  selections is instruction text for the completion service and is not
  modelled. A PromptFacts value lists the rows and results the prompt
  mentions, in the order it mentions them.
*/
module Prompt {
  import opened Wrappers
  import opened Clawbr
  import opened JsArray

  /** `CommentaryInput`. */
  datatype CommentaryInput = CommentaryInput(
    stats: PlatformStats,
    leaderboard: seq<Debater>,
    activeTournaments: seq<TournamentSummary>,
    tournamentDetails: seq<TournamentDetail>)

  /** "<winner> won <round> <matchNumber>". */
  datatype MatchResult = MatchResult(winner: string, round: RoundLabel, matchNumber: int)

  /**
    One line of the tournament summary. An empty `winners` list is printed as
    "No results yet.".
  */
  datatype TournamentLine = TournamentLine(
    title: string,
    status: TournamentStatus,
    currentRound: int,
    totalRounds: int,
    bestOfFinal: int,
    activeCount: nat,
    completedCount: nat,
    winners: seq<MatchResult>)

  datatype PromptFacts = PromptFacts(
    top5: seq<Debater>,
    mvp: Option<Debater>,
    grinder: Option<Debater>,
    tournaments: seq<TournamentLine>)

  function BonusOf(d: Debater): int { d.tournamentEloBonus }
  function BaseEloOf(d: Debater): int { d.baseElo }

  /** `completed.filter((m) => m.winnerAgent).map(...)`, from matches already filtered to completed ones. */
  function Winners(completed: seq<TournamentMatch>): seq<MatchResult> {
    if completed == [] then []
    else
      var m := completed[0];
      (if m.winnerAgent.Some?
       then [MatchResult(m.winnerAgent.value.displayName, m.roundLabel, m.matchNumber)]
       else [])
      + Winners(completed[1..])
  }

  function SummariseTournament(t: TournamentDetail): TournamentLine {
    var completed := Filter(t.matches, IsCompleted);
    TournamentLine(
      t.summary.title, t.summary.status, t.summary.currentRound,
      t.summary.totalRounds, t.summary.bestOfFinal,
      |Filter(t.matches, IsActive)|, |completed|, Winners(completed))
  }

  function SummariseAll(ts: seq<TournamentDetail>): (ls: seq<TournamentLine>)
    ensures |ls| == |ts|
    ensures forall i :: 0 <= i < |ts| ==> ls[i] == SummariseTournament(ts[i])
  {
    if ts == [] then [] else [SummariseTournament(ts[0])] + SummariseAll(ts[1..])
  }

  /**
    The selections `buildPrompt` makes: the first min(5, n) rows in order,
    the MVP (see MvpSelection), the grinder, present exactly when the
    leaderboard is non-empty and the first row with the largest `baseElo`,
    and one summary per tournament detail.
  */
  function BuildPrompt(data: CommentaryInput): (f: PromptFacts)
    ensures |f.top5| == (if |data.leaderboard| < 5 then |data.leaderboard| else 5)
    ensures forall i :: 0 <= i < |f.top5| ==> f.top5[i] == data.leaderboard[i]
    ensures f.grinder.Some? <==> data.leaderboard != []
    ensures f.grinder.Some? ==>
      f.grinder.value == data.leaderboard[FirstMaxIndex(data.leaderboard, BaseEloOf)]
    ensures |f.tournaments| == |data.tournamentDetails|
  {
    var lb := data.leaderboard;
    var best := TopBy(lb, BonusOf);
    PromptFacts(
      lb[..if |lb| < 5 then |lb| else 5],
      if best.Some? && best.value.tournamentEloBonus > 0 then best else None,
      TopBy(lb, BaseEloOf),
      SummariseAll(data.tournamentDetails))
  }

  /**
    The MVP note is written exactly when some debater has a positive
    tournament bonus, and it names the first debater with the largest bonus.
  */
  lemma MvpSelection(data: CommentaryInput)
    ensures var mvp := BuildPrompt(data).mvp;
      && (mvp.Some? <==> exists i :: 0 <= i < |data.leaderboard| && data.leaderboard[i].tournamentEloBonus > 0)
      && (mvp.Some? ==> exists i :: IsFirstMax(data.leaderboard, BonusOf, i) && mvp.value == data.leaderboard[i])
      && (mvp.Some? ==> mvp.value.tournamentEloBonus > 0)
  {
    var lb := data.leaderboard;
    if lb != [] {
      var k := FirstMaxIndex(lb, BonusOf);
      assert BonusOf(lb[k]) == lb[k].tournamentEloBonus;
      if exists i :: 0 <= i < |lb| && lb[i].tournamentEloBonus > 0 {
        var i :| 0 <= i < |lb| && lb[i].tournamentEloBonus > 0;
        assert BonusOf(lb[i]) <= BonusOf(lb[k]);
      }
    }
  }

  /** Counting `completed` and picking out matches with a winner, both in list order. */
  lemma {:induction false} WinnersAreCompletedWithWinner(ms: seq<TournamentMatch>)
    ensures Winners(Filter(ms, IsCompleted)) == WinnersOf(ms)
  {
    if ms != [] {
      WinnersAreCompletedWithWinner(ms[1..]);
      if IsCompleted(ms[0]) {
        assert Filter(ms, IsCompleted)[1..] == Filter(ms[1..], IsCompleted);
      }
    }
  }

  /** Independent statement: every match, in order, that is completed and has a winner. */
  function WinnersOf(ms: seq<TournamentMatch>): seq<MatchResult> {
    if ms == [] then []
    else
      var m := ms[0];
      (if m.status == MatchStatus.Completed && m.winnerAgent.Some?
       then [MatchResult(m.winnerAgent.value.displayName, m.roundLabel, m.matchNumber)]
       else [])
      + WinnersOf(ms[1..])
  }

  /** Active and completed matches are disjoint, so together they are at most all matches. */
  lemma {:induction false} ActivePlusCompletedBounded(ms: seq<TournamentMatch>)
    ensures |Filter(ms, IsActive)| + |Filter(ms, IsCompleted)| <= |ms|
  {
    if ms != [] {
      ActivePlusCompletedBounded(ms[1..]);
    }
  }

  /** Per tournament: the counts and the listed winners. */
  lemma TournamentLineFacts(data: CommentaryInput, i: int)
    requires 0 <= i < |data.tournamentDetails|
    ensures var t, l := data.tournamentDetails[i], BuildPrompt(data).tournaments[i];
      && |BuildPrompt(data).tournaments| == |data.tournamentDetails|
      && l.title == t.summary.title
      && l.activeCount + l.completedCount <= |t.matches|
      && l.winners == WinnersOf(t.matches)
  {
    var t := data.tournamentDetails[i];
    ActivePlusCompletedBounded(t.matches);
    WinnersAreCompletedWithWinner(t.matches);
  }
}
