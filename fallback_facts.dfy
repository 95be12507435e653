/**
  What the fallback commentary promises: its lines come section by section in a
  fixed order, each leaderboard line appears exactly when its condition holds
  and names the debater the ranking picks, every completed quarterfinal or
  final with a winner is narrated, and the platform lines track the stats.
*/
module FallbackFacts {
  import opened Wrappers
  import opened JsText
  import opened JsArray
  import opened Clawbr
  import opened Prompt
  import opened Fallback

  /** The section each kind of line belongs to, in push order. */
  function Priority(b: Blurb): nat {
    match b
    case WinRate(_, _, _) => 0
    case Shutouts(_, _) => 1
    case QFAdvance(_, _) => 2
    case Champion(_, _) => 2
    case LiveMatches(_, _) => 2
    case Milestone(_) => 3
    case LiveDebates(_) => 4
  }

  /** Sections never interleave, and only the tournament section has several lines. */
  predicate InPriorityOrder(bs: seq<Blurb>) {
    forall i, j :: 0 <= i < j < |bs| ==>
      Priority(bs[i]) < Priority(bs[j]) || (Priority(bs[i]) == 2 && Priority(bs[j]) == 2)
  }

  predicate AllOfPriority(bs: seq<Blurb>, p: nat) {
    forall i :: 0 <= i < |bs| ==> Priority(bs[i]) == p
  }

  lemma {:induction false} CompletedBlurbsPriority(ms: seq<TournamentMatch>, title: string)
    ensures AllOfPriority(CompletedBlurbs(ms, title), 2)
    decreases |ms|
  {
    if ms != [] {
      CompletedBlurbsPriority(ms[..|ms| - 1], title);
    }
  }

  lemma {:induction false} AllTournamentBlurbsPriority(ts: seq<TournamentDetail>)
    ensures AllOfPriority(AllTournamentBlurbs(ts), 2)
    decreases |ts|
  {
    if ts != [] {
      var t := ts[|ts| - 1];
      AllTournamentBlurbsPriority(ts[..|ts| - 1]);
      CompletedBlurbsPriority(Filter(t.matches, IsCompleted), t.title());
    }
  }

  lemma OrderAppend(a: seq<Blurb>, b: seq<Blurb>)
    requires InPriorityOrder(a) && InPriorityOrder(b)
    requires forall i, j :: 0 <= i < |a| && 0 <= j < |b| ==>
      Priority(a[i]) < Priority(b[j]) || (Priority(a[i]) == 2 && Priority(b[j]) == 2)
    ensures InPriorityOrder(a + b)
  {
    forall i, j | 0 <= i < j < |a + b|
      ensures Priority((a + b)[i]) < Priority((a + b)[j])
              || (Priority((a + b)[i]) == 2 && Priority((a + b)[j]) == 2)
    {
      if j < |a| {
        assert (a + b)[i] == a[i] && (a + b)[j] == a[j];
      } else if i < |a| {
        assert (a + b)[i] == a[i] && (a + b)[j] == b[j - |a|];
      } else {
        assert (a + b)[i] == b[i - |a|] && (a + b)[j] == b[j - |a|];
      }
    }
  }

  lemma LeaderboardPriority(lb: seq<Debater>)
    ensures InPriorityOrder(LeaderboardBlurbs(lb))
    ensures forall i :: 0 <= i < |LeaderboardBlurbs(lb)| ==> Priority(LeaderboardBlurbs(lb)[i]) <= 1
  {
    if lb != [] {
      var w := WinRateBlurbs(lb);
      var k := ShutoutBlurbs(lb);
      assert |w| <= 1 && forall i :: 0 <= i < |w| ==> Priority(w[i]) == 0;
      assert |k| <= 1 && forall i :: 0 <= i < |k| ==> Priority(k[i]) == 1;
      OrderAppend(w, k);
    }
  }

  lemma StatsPriority(stats: PlatformStats)
    ensures InPriorityOrder(StatsBlurbs(stats))
    ensures forall i :: 0 <= i < |StatsBlurbs(stats)| ==> Priority(StatsBlurbs(stats)[i]) >= 3
  {
  }

  /** The candidate lines come in section order. */
  lemma CandidatesInPriorityOrder(data: CommentaryInput)
    ensures InPriorityOrder(Candidates(data))
  {
    var l := LeaderboardBlurbs(data.leaderboard);
    var m := AllTournamentBlurbs(data.tournamentDetails);
    var s := StatsBlurbs(data.stats);
    AllTournamentBlurbsPriority(data.tournamentDetails);
    LeaderboardPriority(data.leaderboard);
    StatsPriority(data.stats);
    OrderAppend(l, m);
    OrderAppend(l + m, s);
  }

  /** So do the (at most four) lines `generateFallback` returns. */
  lemma FallbackInPriorityOrder(data: CommentaryInput)
    ensures InPriorityOrder(FallbackBlurbs(data))
  {
    CandidatesInPriorityOrder(data);
  }

  // ---------------------------------------------------------------------------
  // Tournament lines, against a reference that walks the matches in order.

  /** What one match says, if anything: only quarterfinals and finals with a winner. */
  function Narrate(m: TournamentMatch, title: string): Option<Blurb> {
    match m.winnerAgent
    case None => None
    case Some(w) =>
      match m.roundLabel
      case Quarterfinal => Some(QFAdvance(m.matchNumber, w.displayName))
      case Semifinal => None
      case Final => Some(Champion(w.displayName, title))
  }

  /** Reference: every completed match, front to back, says what Narrate gives. */
  function Narration(ms: seq<TournamentMatch>, title: string): seq<Blurb> {
    if ms == [] then []
    else
      (if IsCompleted(ms[0]) && Narrate(ms[0], title).Some? then [Narrate(ms[0], title).value] else [])
      + Narration(ms[1..], title)
  }

  /** Reference count of the matches in progress. */
  function ActiveCount(ms: seq<TournamentMatch>): nat {
    if ms == [] then 0 else (if IsActive(ms[0]) then 1 else 0) + ActiveCount(ms[1..])
  }

  lemma {:induction false} CompletedBlurbsAppend(a: seq<TournamentMatch>, b: seq<TournamentMatch>, title: string)
    ensures CompletedBlurbs(a + b, title) == CompletedBlurbs(a, title) + CompletedBlurbs(b, title)
    decreases |b|
  {
    if b == [] {
      assert a + b == a;
    } else {
      var b' := b[..|b| - 1];
      CompletedBlurbsAppend(a, b', title);
      assert (a + b)[..|a + b| - 1] == a + b';
      assert (a + b)[|a + b| - 1] == b[|b| - 1];
    }
  }

  lemma MatchBlurbsNarrate(m: TournamentMatch, title: string)
    ensures MatchBlurbs(m, title) == if Narrate(m, title).Some? then [Narrate(m, title).value] else []
  {
  }

  lemma {:induction false} CompletedIsNarration(ms: seq<TournamentMatch>, title: string)
    ensures CompletedBlurbs(Filter(ms, IsCompleted), title) == Narration(ms, title)
    decreases |ms|
  {
    if ms != [] {
      CompletedIsNarration(ms[1..], title);
      if IsCompleted(ms[0]) {
        var rest := Filter(ms[1..], IsCompleted);
        assert Filter(ms, IsCompleted) == [ms[0]] + rest;
        CompletedBlurbsAppend([ms[0]], rest, title);
        assert CompletedBlurbs([ms[0]], title) == MatchBlurbs(ms[0], title) by {
          assert [ms[0]][..0] == [];
        }
        MatchBlurbsNarrate(ms[0], title);
      }
    }
  }

  lemma {:induction false} ActiveCountIsFilter(ms: seq<TournamentMatch>)
    ensures |Filter(ms, IsActive)| == ActiveCount(ms)
    decreases |ms|
  {
    if ms != [] {
      ActiveCountIsFilter(ms[1..]);
    }
  }

  /** One tournament's lines: its narration, then the live count when positive. */
  lemma TournamentLines(t: TournamentDetail)
    ensures TournamentBlurbs(t)
      == Narration(t.matches, t.title())
         + (if ActiveCount(t.matches) > 0 then [LiveMatches(ActiveCount(t.matches), t.title())] else [])
  {
    CompletedIsNarration(t.matches, t.title());
    ActiveCountIsFilter(t.matches);
  }

  /** A quarterfinal line appears exactly for a completed quarterfinal with that winner. */
  lemma {:induction false} NarratesQuarterfinal(ms: seq<TournamentMatch>, title: string, k: int, name: string)
    ensures QFAdvance(k, name) in Narration(ms, title)
      <==> exists i :: 0 <= i < |ms| && IsCompleted(ms[i]) && ms[i].roundLabel == RoundLabel.Quarterfinal
             && ms[i].winnerAgent.Some? && ms[i].winnerAgent.value.displayName == name
             && ms[i].matchNumber == k
    decreases |ms|
  {
    if ms != [] {
      NarratesQuarterfinal(ms[1..], title, k, name);
      assert forall i :: 1 <= i < |ms| ==> ms[i] == ms[1..][i - 1];
    }
  }

  /** A champion line appears exactly for a completed final with that winner. */
  lemma {:induction false} NarratesChampion(ms: seq<TournamentMatch>, title: string, name: string, title': string)
    ensures Champion(name, title') in Narration(ms, title)
      <==> title' == title
           && exists i :: 0 <= i < |ms| && IsCompleted(ms[i]) && ms[i].roundLabel == RoundLabel.Final
                && ms[i].winnerAgent.Some? && ms[i].winnerAgent.value.displayName == name
    decreases |ms|
  {
    if ms != [] {
      NarratesChampion(ms[1..], title, name, title');
      assert forall i :: 1 <= i < |ms| ==> ms[i] == ms[1..][i - 1];
    }
  }

  /**
    A tournament's matches say nothing exactly when none of them is a
    completed quarterfinal or final with a winner: semifinals and matches
    without a winner never produce a line.
  */
  lemma {:induction false} NarrationSilent(ms: seq<TournamentMatch>, title: string)
    ensures Narration(ms, title) == [] <==>
      forall i :: 0 <= i < |ms| ==>
        !(IsCompleted(ms[i]) && ms[i].winnerAgent.Some? && ms[i].roundLabel != RoundLabel.Semifinal)
    decreases |ms|
  {
    if ms != [] {
      NarrationSilent(ms[1..], title);
      assert forall i :: 1 <= i < |ms| ==> ms[i] == ms[1..][i - 1];
    }
  }

  // ---------------------------------------------------------------------------
  // Where each section sits among the returned lines. The positional facts are
  // proved once over plain sequences and then instantiated.

  /** The first four of `w + sh + rest`, when `rest` holds no leaderboard line. */
  lemma FrontLines(w: seq<Blurb>, sh: seq<Blurb>, rest: seq<Blurb>)
    requires |w| <= 1 && (forall k :: 0 <= k < |w| ==> w[k].WinRate?)
    requires |sh| <= 1 && (forall k :: 0 <= k < |sh| ==> sh[k].Shutouts?)
    requires forall k :: 0 <= k < |rest| ==> Priority(rest[k]) >= 2
    ensures var f := Take(w + sh + rest, 4);
      && (forall k :: 0 <= k < |f| && f[k].WinRate? ==> k == 0 && w != [] && f[k] == w[0])
      && (w != [] ==> |f| > 0 && f[0] == w[0])
      && (forall k :: 0 <= k < |f| && f[k].Shutouts? ==> sh != [] && f[k] == sh[0])
      && (sh != [] ==> |f| > |w| && f[|w|] == sh[0])
  {
    var c := w + sh + rest;
    assert forall k :: 0 <= k < |w| ==> c[k] == w[k];
    assert forall k :: |w| <= k < |w| + |sh| ==> c[k] == sh[k - |w|];
    assert forall k :: |w| + |sh| <= k < |c| ==> c[k] == rest[k - |w| - |sh|];
  }

  /** A stats line is in `l + m + st` just when it is in `st`. */
  lemma StatsMember(l: seq<Blurb>, m: seq<Blurb>, st: seq<Blurb>, x: Blurb)
    requires forall k :: 0 <= k < |l| ==> Priority(l[k]) <= 1
    requires forall k :: 0 <= k < |m| ==> Priority(m[k]) == 2
    requires Priority(x) >= 3
    ensures x in l + m + st <==> x in st
  {
    var c := l + m + st;
    assert forall k :: 0 <= k < |l| ==> c[k] == l[k];
    assert forall k :: |l| <= k < |l| + |m| ==> c[k] == m[k - |l|];
    assert forall k :: |l| + |m| <= k < |c| ==> c[k] == st[k - |l| - |m|];
    assert forall k :: 0 <= k < |st| ==> st[k] == c[|l| + |m| + k];
  }

  lemma WinRateSection(lb: seq<Debater>)
    ensures |WinRateBlurbs(lb)| <= 1
    ensures forall k :: 0 <= k < |WinRateBlurbs(lb)| ==> WinRateBlurbs(lb)[k].WinRate?
    ensures WinRateBlurbs(lb) != [] <==> exists i :: 0 <= i < |lb| && HasFiveDebates(lb[i])
    ensures WinRateBlurbs(lb) != [] ==>
      exists i :: IsFirstMaxWhere(lb, HasFiveDebates, WinRateOf, i)
        && WinRateBlurbs(lb)[0] == WinRate(lb[i].displayName, lb[i].winRate, lb[i].debatesTotal)
  {
    TopByFilter(lb, HasFiveDebates, WinRateOf);
  }

  lemma ShutoutSection(lb: seq<Debater>)
    ensures |ShutoutBlurbs(lb)| <= 1
    ensures forall k :: 0 <= k < |ShutoutBlurbs(lb)| ==> ShutoutBlurbs(lb)[k].Shutouts?
    ensures ShutoutBlurbs(lb) != [] <==> exists i :: 0 <= i < |lb| && lb[i].shutouts > 0
    ensures ShutoutBlurbs(lb) != [] ==>
      exists i :: IsFirstMax(lb, ShutoutsOf, i)
        && ShutoutBlurbs(lb)[0] == Shutouts(lb[i].displayName, lb[i].shutouts)
  {
    if exists i :: 0 <= i < |lb| && lb[i].shutouts > 0 {
      var top := FirstMaxIndex(lb, ShutoutsOf);
      assert lb[top].shutouts > 0;
    }
  }

  lemma LeaderboardSections(lb: seq<Debater>)
    ensures LeaderboardBlurbs(lb) == WinRateBlurbs(lb) + ShutoutBlurbs(lb)
  {
    if lb == [] {
      assert Filter(lb, HasFiveDebates) == [];
    }
  }

  lemma LeaderboardLow(lb: seq<Debater>)
    ensures forall k :: 0 <= k < |LeaderboardBlurbs(lb)| ==> Priority(LeaderboardBlurbs(lb)[k]) <= 1
  {
    LeaderboardSections(lb);
    WinRateSection(lb);
    ShutoutSection(lb);
  }

  /** The returned lines, section by section. */
  lemma FallbackSections(data: CommentaryInput)
    ensures var lb := data.leaderboard;
      FallbackBlurbs(data)
        == Take(WinRateBlurbs(lb) + ShutoutBlurbs(lb)
                + (AllTournamentBlurbs(data.tournamentDetails) + StatsBlurbs(data.stats)), 4)
  {
    var lb := data.leaderboard;
    var m := AllTournamentBlurbs(data.tournamentDetails);
    var st := StatsBlurbs(data.stats);
    LeaderboardSections(lb);
    AppendAssoc(WinRateBlurbs(lb) + ShutoutBlurbs(lb), m, st);
  }

  /** After the leaderboard lines come only tournament and stats lines. */
  lemma RestPriority(data: CommentaryInput)
    ensures forall k :: 0 <= k < |AllTournamentBlurbs(data.tournamentDetails) + StatsBlurbs(data.stats)| ==>
      Priority((AllTournamentBlurbs(data.tournamentDetails) + StatsBlurbs(data.stats))[k]) >= 2
  {
    var m := AllTournamentBlurbs(data.tournamentDetails);
    var st := StatsBlurbs(data.stats);
    AllTournamentBlurbsPriority(data.tournamentDetails);
    StatsPriority(data.stats);
    assert forall k :: 0 <= k < |m| ==> (m + st)[k] == m[k];
    assert forall k :: |m| <= k < |m + st| ==> (m + st)[k] == st[k - |m|];
  }

  /**
    The win-rate line is returned exactly when some debater has five or more
    debates; it is then the first line and names the first debater, in
    leaderboard order, with the best win rate among them.
  */
  lemma WinRateLine(data: CommentaryInput)
    ensures var lb := data.leaderboard; var f := FallbackBlurbs(data);
      && ((exists k :: 0 <= k < |f| && f[k].WinRate?) <==> (exists i :: 0 <= i < |lb| && HasFiveDebates(lb[i])))
      && (forall k :: 0 <= k < |f| && f[k].WinRate? ==>
            k == 0 && exists i :: IsFirstMaxWhere(lb, HasFiveDebates, WinRateOf, i)
                        && f[k] == WinRate(lb[i].displayName, lb[i].winRate, lb[i].debatesTotal))
  {
    var lb := data.leaderboard;
    FallbackSections(data);
    RestPriority(data);
    WinRateSection(lb);
    ShutoutSection(lb);
    FrontLines(WinRateBlurbs(lb), ShutoutBlurbs(lb),
               AllTournamentBlurbs(data.tournamentDetails) + StatsBlurbs(data.stats));
  }

  /**
    The shutout line is returned exactly when some debater has a shutout, and
    it names the first debater, in leaderboard order, with the most of them.
  */
  lemma ShutoutLine(data: CommentaryInput)
    ensures var lb := data.leaderboard; var f := FallbackBlurbs(data);
      && ((exists k :: 0 <= k < |f| && f[k].Shutouts?) <==> (exists i :: 0 <= i < |lb| && lb[i].shutouts > 0))
      && (forall k :: 0 <= k < |f| && f[k].Shutouts? ==>
            exists i :: IsFirstMax(lb, ShutoutsOf, i) && f[k] == Shutouts(lb[i].displayName, lb[i].shutouts))
  {
    var lb := data.leaderboard;
    FallbackSections(data);
    RestPriority(data);
    WinRateSection(lb);
    ShutoutSection(lb);
    FrontLines(WinRateBlurbs(lb), ShutoutBlurbs(lb),
               AllTournamentBlurbs(data.tournamentDetails) + StatsBlurbs(data.stats));
  }

  /** The platforms-stats lines sit after every leaderboard and tournament line. */
  lemma StatsAfterTheRest(data: CommentaryInput, x: Blurb)
    requires Priority(x) >= 3
    ensures x in Candidates(data) <==> x in StatsBlurbs(data.stats)
  {
    var l := LeaderboardBlurbs(data.leaderboard);
    var m := AllTournamentBlurbs(data.tournamentDetails);
    AllTournamentBlurbsPriority(data.tournamentDetails);
    LeaderboardLow(data.leaderboard);
    StatsMember(l, m, StatsBlurbs(data.stats), x);
  }

  /** The milestone candidate is the debate total, offered from 100 debates on. */
  lemma MilestoneCandidate(data: CommentaryInput, x: int)
    ensures Milestone(x) in Candidates(data)
      <==> data.stats.debates_total >= 100 && x == data.stats.debates_total
  {
    StatsAfterTheRest(data, Milestone(x));
  }

  /** The live-debates candidate is the number of debates in progress, when positive. */
  lemma LiveDebatesCandidate(data: CommentaryInput, x: int)
    ensures LiveDebates(x) in Candidates(data)
      <==> data.stats.debates_active > 0 && x == data.stats.debates_active
  {
    StatsAfterTheRest(data, LiveDebates(x));
  }

  // ---------------------------------------------------------------------------
  // When there is nothing to say, and two concrete boards.

  /** A tournament with nothing to narrate and no match in progress. */
  predicate Quiet(t: TournamentDetail) {
    Narration(t.matches, t.title()) == [] && ActiveCount(t.matches) == 0
  }

  lemma TournamentQuiet(t: TournamentDetail)
    ensures TournamentBlurbs(t) == [] <==> Quiet(t)
  {
    TournamentLines(t);
  }

  lemma AllTournamentBlurbsEmpty(ts: seq<TournamentDetail>)
    ensures AllTournamentBlurbs(ts) == [] <==> forall j :: 0 <= j < |ts| ==> Quiet(ts[j])
  {
    forall j | 0 <= j < |ts|
      ensures TournamentBlurbs(ts[j]) == [] <==> Quiet(ts[j])
    {
      TournamentQuiet(ts[j]);
    }
    ConcatMapEmptyIff(ts, TournamentBlurbs, Quiet);
  }

  /**
    The fallback has no line at all exactly when no debater has five debates
    or a shutout, no tournament has a narrated match or a match in progress,
    the platform has fewer than 100 debates and none in progress.
  */
  lemma NothingToSay(data: CommentaryInput)
    ensures var lb := data.leaderboard; var ts := data.tournamentDetails;
      FallbackBlurbs(data) == [] <==>
        && (forall i :: 0 <= i < |lb| ==> !HasFiveDebates(lb[i]) && lb[i].shutouts <= 0)
        && (forall j :: 0 <= j < |ts| ==> Quiet(ts[j]))
        && data.stats.debates_total < 100
        && data.stats.debates_active <= 0
  {
    var lb := data.leaderboard;
    assert FallbackBlurbs(data) == [] <==> Candidates(data) == [];
    assert LeaderboardBlurbs(lb) == []
           <==> forall i :: 0 <= i < |lb| ==> !HasFiveDebates(lb[i]) && lb[i].shutouts <= 0 by {
      LeaderboardSections(lb);
      WinRateSection(lb);
      ShutoutSection(lb);
    }
    AllTournamentBlurbsEmpty(data.tournamentDetails);
  }

  lemma SmallNumbers()
    ensures IntToString(8) == "8"
    ensures IntToString(100) == "100"
  {
    assert NatToString(1) == "1";
    assert NatToString(10) == "10";
  }

  /** The win-rate line of an unbeaten record reports it. */
  lemma RenderPerfectRecord(name: string)
    ensures Contains(Render(WinRate(name, 100, 8)), "100% win rate")
  {
    SmallNumbers();
    var r := Render(WinRate(name, 100, 8));
    assert r == name + " is COOKING with a " + "100" + "% win rate across " + "8" + " debates!";
    assert r[|name| + 19..|name| + 19 + 13] == "100% win rate";
    assert OccursAt(r, "100% win rate", |name| + 19);
  }

  /** The champion line names the winner and the crown. */
  lemma RenderChampion(title: string)
    ensures Contains(Render(Champion("SLOPS", title)), "SLOPS")
    ensures Contains(Render(Champion("SLOPS", title)), "crown")
  {
    var r := Render(Champion("SLOPS", title));
    assert r == "YOUR CHAMPION: " + "SLOPS" + " takes the \"" + title + "\" crown!";
    assert OccursAt(r, "SLOPS", 15);
    var c := 15 + 5 + 12 + |title| + 2;
    assert r[c..c + 5] == "crown";
    assert OccursAt(r, "crown", c);
  }

  /**
    A leaderboard headed by an unbeaten debater with eight debates (no win
    rate can exceed 100): the fallback opens with that debater's line, and
    the rendered text reports the 100% win rate.
  */
  lemma PerfectRecordOpens(data: CommentaryInput)
    requires |data.leaderboard| > 0
    requires data.leaderboard[0].debatesTotal == 8 && data.leaderboard[0].winRate == 100
    requires forall i :: 0 <= i < |data.leaderboard| ==> data.leaderboard[i].winRate <= 100
    ensures |FallbackBlurbs(data)| > 0
    ensures FallbackBlurbs(data)[0] == WinRate(data.leaderboard[0].displayName, 100, 8)
    ensures Contains(Render(FallbackBlurbs(data)[0]), "100% win rate")
  {
    var lb := data.leaderboard;
    var f := FallbackBlurbs(data);
    assert |f| > 0 && (exists i :: IsFirstMaxWhere(lb, HasFiveDebates, WinRateOf, i)
                                   && f[0] == WinRate(lb[i].displayName, lb[i].winRate, lb[i].debatesTotal)) by {
      WinRateLine(data);
      assert HasFiveDebates(lb[0]);
    }
    var i :| IsFirstMaxWhere(lb, HasFiveDebates, WinRateOf, i)
             && f[0] == WinRate(lb[i].displayName, lb[i].winRate, lb[i].debatesTotal);
    assert WinRateOf(lb[i]) >= WinRateOf(lb[0]);
    assert i == 0;
    RenderPerfectRecord(lb[0].displayName);
  }

  /**
    A board with no leaderboard and a single tournament whose only match is a
    completed final won by SLOPS: the fallback opens by crowning SLOPS.
  */
  lemma ChampionOpens(data: CommentaryInput, t: TournamentDetail, m: TournamentMatch)
    requires data.leaderboard == [] && data.tournamentDetails == [t]
    requires t.matches == [m] && IsCompleted(m) && m.roundLabel == RoundLabel.Final
    requires m.winnerAgent.Some? && m.winnerAgent.value.displayName == "SLOPS"
    ensures |FallbackBlurbs(data)| > 0
    ensures FallbackBlurbs(data)[0] == Champion("SLOPS", t.title())
    ensures Contains(Render(FallbackBlurbs(data)[0]), "SLOPS")
    ensures Contains(Render(FallbackBlurbs(data)[0]), "crown")
  {
    TournamentLines(t);
    assert Narration(t.matches, t.title()) == [Champion("SLOPS", t.title())];
    assert ActiveCount(t.matches) == 0;
    assert AllTournamentBlurbs(data.tournamentDetails) == TournamentBlurbs(t) by {
      var ts := data.tournamentDetails;
      assert ts[..0] == [];
      assert ConcatMap(ts, TournamentBlurbs) == ConcatMap(ts[..0], TournamentBlurbs) + TournamentBlurbs(ts[0]);
    }
    RenderChampion(t.title());
  }
}
