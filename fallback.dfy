/**
  `generateFallback`: the deterministic commentary used when the completion
  service gives nothing usable. Each line is a Blurb; Render gives its text.
  Candidates lists every line the rules produce, in the order the code pushes
  them; the result is the first four of them. GenerateFallback is the
  imperative code itself, proved to compute FallbackBlurbs.
*/
module Fallback {
  import opened Wrappers
  import opened JsText
  import opened JsArray
  import opened Clawbr
  import opened Prompt

  datatype Blurb =
    | WinRate(name: string, rate: int, total: int)
    | Shutouts(name: string, count: int)
    | QFAdvance(matchNumber: int, name: string)
    | Champion(name: string, title: string)
    | LiveMatches(count: int, title: string)
    | Milestone(total: int)
    | LiveDebates(count: int)

  /** The template string of each line. */
  function Render(b: Blurb): string {
    match b
    case WinRate(n, r, t) =>
      n + " is COOKING with a " + IntToString(r) + "% win rate across " + IntToString(t) + " debates!"
    case Shutouts(n, c) =>
      n + " has " + IntToString(c) + " SHUTOUTS. Opponents can't catch a break!"
    case QFAdvance(k, n) =>
      "Quarterfinal " + IntToString(k) + " is DONE — " + n + " advances to the semis!"
    case Champion(n, t) =>
      "YOUR CHAMPION: " + n + " takes the \"" + t + "\" crown!"
    case LiveMatches(c, t) =>
      IntToString(c) + " quarterfinal matches still LIVE in \"" + t + "\" — who's next?"
    case Milestone(t) =>
      IntToString(t) + " total debates and counting. This platform doesn't sleep!"
    case LiveDebates(c) =>
      IntToString(c) + " debates happening RIGHT NOW. The timeline is on fire!"
  }

  function RenderAll(bs: seq<Blurb>): (lines: seq<string>)
    ensures |lines| == |bs|
    ensures forall i :: 0 <= i < |bs| ==> lines[i] == Render(bs[i])
  {
    if bs == [] then [] else [Render(bs[0])] + RenderAll(bs[1..])
  }

  predicate HasFiveDebates(d: Debater) { d.debatesTotal >= 5 }
  function WinRateOf(d: Debater): int { d.winRate }
  function ShutoutsOf(d: Debater): int { d.shutouts }

  /** The win-rate line: the best win rate among debaters with five or more debates. */
  function WinRateBlurbs(lb: seq<Debater>): seq<Blurb> {
    var mostWins := TopBy(Filter(lb, HasFiveDebates), WinRateOf);
    if mostWins.Some?
    then [WinRate(mostWins.value.displayName, mostWins.value.winRate, mostWins.value.debatesTotal)]
    else []
  }

  /** The shutout line: the most shutouts, when that number is positive. */
  function ShutoutBlurbs(lb: seq<Debater>): seq<Blurb> {
    var king := TopBy(lb, ShutoutsOf);
    if king.Some? && king.value.shutouts > 0
    then [Shutouts(king.value.displayName, king.value.shutouts)]
    else []
  }

  /** The leaderboard lines, computed only for a non-empty leaderboard. */
  function LeaderboardBlurbs(lb: seq<Debater>): seq<Blurb> {
    if lb == [] then [] else WinRateBlurbs(lb) + ShutoutBlurbs(lb)
  }

  /** The lines one completed match contributes. */
  function MatchBlurbs(m: TournamentMatch, title: string): seq<Blurb> {
    (if m.winnerAgent.Some? && m.roundLabel == RoundLabel.Quarterfinal
     then [QFAdvance(m.matchNumber, m.winnerAgent.value.displayName)]
     else [])
    + (if m.winnerAgent.Some? && m.roundLabel == RoundLabel.Final
       then [Champion(m.winnerAgent.value.displayName, title)]
       else [])
  }

  /** The lines of a run of completed matches, in order. */
  function CompletedBlurbs(completed: seq<TournamentMatch>, title: string): seq<Blurb> {
    if completed == [] then []
    else CompletedBlurbs(completed[..|completed| - 1], title) + MatchBlurbs(completed[|completed| - 1], title)
  }

  /** One pass of `generateFallback`'s loop over `tournamentDetails`. */
  function TournamentBlurbs(t: TournamentDetail): seq<Blurb> {
    var active := Filter(t.matches, IsActive);
    CompletedBlurbs(Filter(t.matches, IsCompleted), t.title())
    + (if |active| > 0 then [LiveMatches(|active|, t.title())] else [])
  }

  function AllTournamentBlurbs(ts: seq<TournamentDetail>): seq<Blurb> {
    ConcatMap(ts, TournamentBlurbs)
  }

  /** The milestone and live-debates lines, from `data.stats`. */
  function StatsBlurbs(stats: PlatformStats): seq<Blurb> {
    (if stats.debates_total >= 100 then [Milestone(stats.debates_total)] else [])
    + (if stats.debates_active > 0 then [LiveDebates(stats.debates_active)] else [])
  }

  /** Every line some rule produces, in the order they are pushed. */
  function Candidates(data: CommentaryInput): seq<Blurb> {
    LeaderboardBlurbs(data.leaderboard)
    + AllTournamentBlurbs(data.tournamentDetails)
    + StatsBlurbs(data.stats)
  }

  /** `blurbs.slice(0, 4)`: the first min(4, n) candidates. */
  function FallbackBlurbs(data: CommentaryInput): (r: seq<Blurb>)
    ensures |r| <= 4
    ensures |r| == if |Candidates(data)| < 4 then |Candidates(data)| else 4
    ensures forall i :: 0 <= i < |r| ==> r[i] == Candidates(data)[i]
  {
    Take(Candidates(data), 4)
  }

  lemma AppendAssoc<T>(a: seq<T>, b: seq<T>, c: seq<T>)
    ensures (a + b) + c == a + (b + c)
  {
  }

  lemma CompletedBlurbsSnoc(completed: seq<TournamentMatch>, j: nat, title: string)
    requires j < |completed|
    ensures CompletedBlurbs(completed[..j + 1], title)
            == CompletedBlurbs(completed[..j], title) + MatchBlurbs(completed[j], title)
  {
    assert completed[..j + 1][..j] == completed[..j];
  }

  lemma AllTournamentBlurbsSnoc(ts: seq<TournamentDetail>, i: nat)
    requires i < |ts|
    ensures AllTournamentBlurbs(ts[..i + 1]) == AllTournamentBlurbs(ts[..i]) + TournamentBlurbs(ts[i])
  {
    assert ts[..i + 1][..i] == ts[..i];
  }

  /** The body of `generateFallback`'s loop over `tournamentDetails`, with its inner loop over the completed matches. */
  method PushTournamentLines(blurbs: seq<Blurb>, t: TournamentDetail) returns (pushed: seq<Blurb>)
    ensures pushed == blurbs + TournamentBlurbs(t)
  {
    var completed := Filter(t.matches, IsCompleted);
    var active := Filter(t.matches, IsActive);
    pushed := blurbs;
    for j := 0 to |completed|
      invariant pushed == blurbs + CompletedBlurbs(completed[..j], t.title())
    {
      var m := completed[j];
      ghost var mid := pushed;
      if m.winnerAgent.Some? && m.roundLabel == RoundLabel.Quarterfinal {
        pushed := pushed + [QFAdvance(m.matchNumber, m.winnerAgent.value.displayName)];
      }
      if m.winnerAgent.Some? && m.roundLabel == RoundLabel.Final {
        pushed := pushed + [Champion(m.winnerAgent.value.displayName, t.title())];
      }
      assert pushed == mid + MatchBlurbs(m, t.title());
      CompletedBlurbsSnoc(completed, j, t.title());
      AppendAssoc(blurbs, CompletedBlurbs(completed[..j], t.title()), MatchBlurbs(m, t.title()));
    }
    assert completed[..|completed|] == completed;
    if |active| > 0 {
      pushed := pushed + [LiveMatches(|active|, t.title())];
    }
    AppendAssoc(blurbs, CompletedBlurbs(completed, t.title()),
                if |active| > 0 then [LiveMatches(|active|, t.title())] else []);
  }

  /** The `data.leaderboard.length > 0` section of `generateFallback`. */
  method PushLeaderboardLines(blurbs: seq<Blurb>, lb: seq<Debater>) returns (pushed: seq<Blurb>)
    ensures pushed == blurbs + LeaderboardBlurbs(lb)
  {
    pushed := blurbs;
    if |lb| > 0 {
      var mostWins := TopBy(Filter(lb, HasFiveDebates), WinRateOf);
      if mostWins.Some? {
        var d := mostWins.value;
        pushed := pushed + [WinRate(d.displayName, d.winRate, d.debatesTotal)];
      }
      var king := TopBy(lb, ShutoutsOf);
      if king.Some? && king.value.shutouts > 0 {
        pushed := pushed + [Shutouts(king.value.displayName, king.value.shutouts)];
      }
    }
  }

  /** The `debates_total` and `debates_active` section of `generateFallback`. */
  method PushStatsLines(blurbs: seq<Blurb>, stats: PlatformStats) returns (pushed: seq<Blurb>)
    ensures pushed == blurbs + StatsBlurbs(stats)
  {
    pushed := blurbs;
    if stats.debates_total >= 100 {
      pushed := pushed + [Milestone(stats.debates_total)];
    }
    if stats.debates_active > 0 {
      pushed := pushed + [LiveDebates(stats.debates_active)];
    }
  }

  /** `generateFallback`: the sections in order, then the first four lines. */
  method GenerateFallback(data: CommentaryInput) returns (blurbs: seq<Blurb>)
    ensures blurbs == FallbackBlurbs(data)
  {
    var lb := data.leaderboard;
    blurbs := PushLeaderboardLines([], lb);
    var ts := data.tournamentDetails;
    for i := 0 to |ts|
      invariant blurbs == LeaderboardBlurbs(lb) + AllTournamentBlurbs(ts[..i])
    {
      blurbs := PushTournamentLines(blurbs, ts[i]);
      AllTournamentBlurbsSnoc(ts, i);
      AppendAssoc(LeaderboardBlurbs(lb), AllTournamentBlurbs(ts[..i]), TournamentBlurbs(ts[i]));
    }
    assert ts[..|ts|] == ts;
    blurbs := PushStatsLines(blurbs, data.stats);
    blurbs := Take(blurbs, 4);
  }
}
