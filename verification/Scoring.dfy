/** The two scorers: totals of `llm.call` tokens per team, ranked. */
module Scoring {
  import opened Common
  import opened Sorting
  import opened CaptureClaim

  type Total = (string, int)

  datatype ScoreReport = ScoreReport(teamId: string, rank: nat, score: int, status: string)

  lemma TotalTokensExactly(e: ContestEvent)
    ensures "total_tokens" in e.metrics ==> TotalTokens(e) == e.metrics["total_tokens"]
    ensures "total_tokens" !in e.metrics ==> TotalTokens(e) == 0
  {
  }

  function TotalTokens(e: ContestEvent): int { GetOr(e.metrics, "total_tokens", 0) }

  predicate IsCall(e: ContestEvent) { e.kind == "llm.call" }

  // ------------------------------------------------------------------
  // Totals
  // ------------------------------------------------------------------

  /** What an event adds to a team's total. */
  function Contribution(team: string): ContestEvent -> int
  {
    (e: ContestEvent) => if e.kind == "llm.call" && e.teamId == team then TotalTokens(e) else 0
  }

  function CallTokens(): ContestEvent -> int { (e: ContestEvent) => if e.kind == "llm.call" then TotalTokens(e) else 0 }

  /** The teams with at least one call. */
  ghost function CallingTeams(events: seq<ContestEvent>): set<string>
  {
    set e | e in events && e.kind == "llm.call" :: e.teamId
  }

  ghost predicate AreTotals(events: seq<ContestEvent>, totals: map<string, int>)
  {
    && totals.Keys == CallingTeams(events)
    && forall t :: t in totals ==> totals[t] == Sum(Contribution(t), events)
  }

  lemma {:induction false} NoCallsNoTokens(events: seq<ContestEvent>, team: string)
    requires team !in CallingTeams(events)
    ensures Sum(Contribution(team), events) == 0
  {
    if events != [] {
      var n := |events| - 1;
      assert events[n] in events;
      assert forall e :: e in events[..n] ==> e in events;
      NoCallsNoTokens(events[..n], team);
    }
  }

  /** `totals_by_team`. */
  method TotalsByTeam(events: seq<ContestEvent>) returns (totals: map<string, int>)
    ensures AreTotals(events, totals)
  {
    totals := map[];
    for i := 0 to |events|
      invariant AreTotals(events[..i], totals)
    {
      var e := events[i];
      TotalsStep(events[..i], e, totals);
      assert events[..i + 1] == events[..i] + [e];
      if IsCall(e) {
        totals := totals[e.teamId := GetOr(totals, e.teamId, 0) + TotalTokens(e)];
      }
    }
    assert events[..|events|] == events;
  }

  lemma TotalsStep(events: seq<ContestEvent>, e: ContestEvent, totals: map<string, int>)
    requires AreTotals(events, totals)
    ensures var next := if IsCall(e) then totals[e.teamId := GetOr(totals, e.teamId, 0) + TotalTokens(e)] else totals;
            AreTotals(events + [e], next)
  {
    var next := if IsCall(e) then totals[e.teamId := GetOr(totals, e.teamId, 0) + TotalTokens(e)] else totals;
    assert CallingTeams(events + [e]) == CallingTeams(events) + (if IsCall(e) then {e.teamId} else {});
    forall t | t in next ensures next[t] == Sum(Contribution(t), events + [e]) {
      SumSnoc(Contribution(t), events, e);
      if t !in totals { NoCallsNoTokens(events, t); }
    }
  }

  // ------------------------------------------------------------------
  // Rankings
  // ------------------------------------------------------------------

  /** `score_min_tokens`: fewest tokens first, then by team id. */
  function MinOrder(): (Total, Total) -> bool
  {
    (a: Total, b: Total) => a.1 < b.1 || (a.1 == b.1 && StrLeq(a.0, b.0))
  }

  /** `score_max_tokens_under_budget`: within budget first, then most tokens, then by team id. */
  function BudgetOrder(budget: int): (Total, Total) -> bool
  {
    (a: Total, b: Total) =>
      if (a.1 <= budget) != (b.1 <= budget) then a.1 <= budget
      else a.1 > b.1 || (a.1 == b.1 && StrLeq(a.0, b.0))
  }

  lemma OrdersAreTotal(budget: int)
    ensures TotalPreorder(MinOrder()) && Antisymmetric(MinOrder())
    ensures TotalPreorder(BudgetOrder(budget)) && Antisymmetric(BudgetOrder(budget))
  {
    forall a: string, b: string
      ensures StrLeq(a, b) || StrLeq(b, a)
      ensures StrLeq(a, b) && StrLeq(b, a) ==> a == b
    {
      StrTotal(a, b);
    }
    forall a: string, b: string, c: string | StrLeq(a, b) && StrLeq(b, c) ensures StrLeq(a, c) {
      StrTransitive(a, b, c);
    }
  }

  /** `reports` ranks exactly the calling teams of `events`, once each, with
      their totals, in the order `leq`; ranks count from 1. */
  ghost predicate IsRanking(leq: (Total, Total) -> bool, events: seq<ContestEvent>, reports: seq<ScoreReport>)
  {
    && (forall i :: 0 <= i < |reports| ==> reports[i].rank == i + 1)
    && (forall i :: 0 <= i < |reports| ==> reports[i].teamId in CallingTeams(events))
    && (forall i :: 0 <= i < |reports| ==> reports[i].score == Sum(Contribution(reports[i].teamId), events))
    && (forall t :: t in CallingTeams(events) ==> exists i :: 0 <= i < |reports| && reports[i].teamId == t)
    && (forall i, j :: 0 <= i < j < |reports| ==> reports[i].teamId != reports[j].teamId)
    && Sorted(leq, Pairs(reports))
  }

  function Pairs(reports: seq<ScoreReport>): seq<Total>
  {
    seq(|reports|, i requires 0 <= i < |reports| => (reports[i].teamId, reports[i].score))
  }

  function Status(budget: int, total: int): string { if total <= budget then "eligible" else "ineligible" }

  /** The map's entries as a list; the order in which a map yields them does not matter here. */
  method EntriesOf(totals: map<string, int>) returns (entries: seq<Total>)
    ensures multiset(entries) == multiset(totals.Items)
  {
    entries := [];
    var left := totals.Items;
    while left != {}
      invariant multiset(entries) + multiset(left) == multiset(totals.Items)
      decreases left
    {
      var e :| e in left;
      assert multiset(left) == multiset(left - {e}) + multiset{e};
      left := left - {e};
      entries := entries + [e];
    }
  }

  /** The list of a map's items holds every key once, with its value. */
  lemma EntriesAreTotals(entries: seq<Total>, totals: map<string, int>)
    requires multiset(entries) == multiset(totals.Items)
    ensures forall e :: e in entries <==> e.0 in totals && totals[e.0] == e.1
    ensures forall i, j :: 0 <= i < j < |entries| ==> entries[i].0 != entries[j].0
  {
    forall e ensures e in entries <==> e.0 in totals && totals[e.0] == e.1 {
      assert e in entries <==> e in multiset(entries);
      assert e in totals.Items <==> e.0 in totals && totals[e.0] == e.1;
    }
    forall i, j | 0 <= i < j < |entries| ensures entries[i].0 != entries[j].0 {
      assert multiset(totals.Items)[entries[i]] <= 1;
      if entries[i] == entries[j] { TwiceCounts(entries, i, j); }
    }
  }

  lemma RankingFromTotals(leq: (Total, Total) -> bool, events: seq<ContestEvent>, totals: map<string, int>,
                          sorted: seq<Total>, reports: seq<ScoreReport>)
    requires AreTotals(events, totals) && multiset(sorted) == multiset(totals.Items) && Sorted(leq, sorted)
    requires |reports| == |sorted|
    requires forall i :: 0 <= i < |sorted| ==>
               (reports[i].teamId, reports[i].score) == sorted[i] && reports[i].rank == i + 1
    ensures IsRanking(leq, events, reports)
  {
    EntriesAreTotals(sorted, totals);
    assert Pairs(reports) == sorted;
    forall i | 0 <= i < |reports|
      ensures reports[i].teamId in CallingTeams(events)
      ensures reports[i].score == Sum(Contribution(reports[i].teamId), events)
    {
      assert sorted[i] in sorted;
    }
    forall t | t in CallingTeams(events) ensures exists i :: 0 <= i < |reports| && reports[i].teamId == t {
      assert (t, totals[t]) in sorted;
      var i :| 0 <= i < |sorted| && sorted[i] == (t, totals[t]);
      assert reports[i].teamId == t;
    }
    forall i, j | 0 <= i < j < |reports| ensures reports[i].teamId != reports[j].teamId {
      assert sorted[i].0 != sorted[j].0;
    }
  }

  method SortedTotals(leq: (Total, Total) -> bool, totals: map<string, int>) returns (sorted: seq<Total>)
    requires TotalPreorder(leq)
    ensures Sorted(leq, sorted) && multiset(sorted) == multiset(totals.Items)
  {
    var entries := EntriesOf(totals);
    SortCorrect(leq, entries);
    sorted := Sort(leq, entries);
  }

  /** Fewer tokens first; teams with equally many by id. */
  ghost predicate FewestFirst(a: ScoreReport, b: ScoreReport)
  {
    a.score < b.score || (a.score == b.score && Lexicographic(a.teamId, b.teamId))
  }

  /** Teams within budget first; on either side more tokens first, equals by id. */
  ghost predicate MostWithinBudgetFirst(budget: int, a: ScoreReport, b: ScoreReport)
  {
    && (b.score <= budget ==> a.score <= budget)
    && ((a.score <= budget <==> b.score <= budget) ==>
          a.score > b.score || (a.score == b.score && Lexicographic(a.teamId, b.teamId)))
  }

  lemma MinRankingOrders(events: seq<ContestEvent>, reports: seq<ScoreReport>)
    requires IsRanking(MinOrder(), events, reports)
    ensures forall i, j :: 0 <= i < j < |reports| ==> FewestFirst(reports[i], reports[j])
  {
    forall i, j | 0 <= i < j < |reports| ensures FewestFirst(reports[i], reports[j]) {
      assert MinOrder()(Pairs(reports)[i], Pairs(reports)[j]);
      StrLeqIsLexicographic(reports[i].teamId, reports[j].teamId);
    }
  }

  lemma BudgetRankingOrders(events: seq<ContestEvent>, budget: int, reports: seq<ScoreReport>)
    requires IsRanking(BudgetOrder(budget), events, reports)
    ensures forall i, j :: 0 <= i < j < |reports| ==> MostWithinBudgetFirst(budget, reports[i], reports[j])
  {
    forall i, j | 0 <= i < j < |reports| ensures MostWithinBudgetFirst(budget, reports[i], reports[j]) {
      assert BudgetOrder(budget)(Pairs(reports)[i], Pairs(reports)[j]);
      StrLeqIsLexicographic(reports[i].teamId, reports[j].teamId);
    }
  }

  method ScoreMinTokens(events: seq<ContestEvent>) returns (reports: seq<ScoreReport>)
    ensures IsRanking(MinOrder(), events, reports)
    ensures forall i, j :: 0 <= i < j < |reports| ==> FewestFirst(reports[i], reports[j])
    ensures forall i :: 0 <= i < |reports| ==> reports[i].status == "eligible"
  {
    var totals := TotalsByTeam(events);
    OrdersAreTotal(0);
    var sorted := SortedTotals(MinOrder(), totals);
    reports := seq(|sorted|, i requires 0 <= i < |sorted| => ScoreReport(sorted[i].0, i + 1, sorted[i].1, "eligible"));
    RankingFromTotals(MinOrder(), events, totals, sorted, reports);
    MinRankingOrders(events, reports);
  }

  method ScoreMaxTokensUnderBudget(events: seq<ContestEvent>, budget: int) returns (reports: seq<ScoreReport>)
    ensures IsRanking(BudgetOrder(budget), events, reports)
    ensures forall i, j :: 0 <= i < j < |reports| ==> MostWithinBudgetFirst(budget, reports[i], reports[j])
    ensures forall i :: 0 <= i < |reports| ==>
              reports[i].status == if reports[i].score <= budget then "eligible" else "ineligible"
  {
    var totals := TotalsByTeam(events);
    OrdersAreTotal(budget);
    var sorted := SortedTotals(BudgetOrder(budget), totals);
    reports := seq(|sorted|, i requires 0 <= i < |sorted| =>
      ScoreReport(sorted[i].0, i + 1, sorted[i].1, Status(budget, sorted[i].1)));
    RankingFromTotals(BudgetOrder(budget), events, totals, sorted, reports);
    BudgetRankingOrders(events, budget, reports);
  }

  // ------------------------------------------------------------------
  // What a ranking is worth
  // ------------------------------------------------------------------

  /** In a budget ranking no ineligible team stands before an eligible one. */
  lemma EligibleFirst(events: seq<ContestEvent>, budget: int, reports: seq<ScoreReport>, i: nat, j: nat)
    requires IsRanking(BudgetOrder(budget), events, reports) && i < j < |reports|
    ensures reports[j].score <= budget ==> reports[i].score <= budget
  {
    var p := Pairs(reports);
    assert BudgetOrder(budget)(p[i], p[j]);
  }

  /** Conservation: the scores of a ranking sum to the tokens of all calls. */
  lemma ScoresSumToTokens(leq: (Total, Total) -> bool, events: seq<ContestEvent>, reports: seq<ScoreReport>)
    requires IsRanking(leq, events, reports)
    ensures Sum((r: ScoreReport) => r.score, reports) == Sum(CallTokens(), events)
  {
    var score := (r: ScoreReport) => r.score;
    assert forall e :: e in events && IsCall(e) ==> e.teamId in CallingTeams(events);
    ScoresSum(score, events, reports);
  }

  /** Tokens of the calls of the reported teams. */
  function ReportedTokens(reports: seq<ScoreReport>): ContestEvent -> int
  {
    e => if IsCall(e) && (exists i :: 0 <= i < |reports| && reports[i].teamId == e.teamId) then TotalTokens(e) else 0
  }

  lemma {:induction false} SumAgrees(f: ContestEvent -> int, g: ContestEvent -> int, events: seq<ContestEvent>)
    requires forall e :: e in events ==> f(e) == g(e)
    ensures Sum(f, events) == Sum(g, events)
  {
    if events != [] {
      var n := |events| - 1;
      assert events[n] in events;
      assert forall e :: e in events[..n] ==> e in events;
      SumAgrees(f, g, events[..n]);
    }
  }

  lemma {:induction false} SumAdds(f: ContestEvent -> int, g: ContestEvent -> int, h: ContestEvent -> int,
                                   events: seq<ContestEvent>)
    requires forall e :: f(e) == g(e) + h(e)
    ensures Sum(f, events) == Sum(g, events) + Sum(h, events)
  {
    if events != [] { SumAdds(f, g, h, events[..|events| - 1]); }
  }

  lemma {:induction false} SumZero(f: ContestEvent -> int, events: seq<ContestEvent>)
    requires forall e :: f(e) == 0
    ensures Sum(f, events) == 0
  {
    if events != [] { SumZero(f, events[..|events| - 1]); }
  }

  lemma {:induction false} PartialScoresSum(score: ScoreReport -> int, events: seq<ContestEvent>,
                                            reports: seq<ScoreReport>)
    requires forall r :: score(r) == r.score
    requires forall i :: 0 <= i < |reports| ==> reports[i].score == Sum(Contribution(reports[i].teamId), events)
    requires forall i, j :: 0 <= i < j < |reports| ==> reports[i].teamId != reports[j].teamId
    ensures Sum(score, reports) == Sum(ReportedTokens(reports), events)
    decreases |reports|
  {
    if reports == [] {
      SumZero(ReportedTokens(reports), events);
    } else {
      var n := |reports| - 1;
      var init, last := reports[..n], reports[n];
      PartialScoresSum(score, events, init);
      forall e: ContestEvent
        ensures ReportedTokens(reports)(e) == ReportedTokens(init)(e) + Contribution(last.teamId)(e)
      {
        assert forall i :: 0 <= i < n ==> init[i] == reports[i];
      }
      SumAdds(ReportedTokens(reports), ReportedTokens(init), Contribution(last.teamId), events);
    }
  }

  lemma ScoresSum(score: ScoreReport -> int, events: seq<ContestEvent>, reports: seq<ScoreReport>)
    requires forall r :: score(r) == r.score
    requires forall i :: 0 <= i < |reports| ==> reports[i].score == Sum(Contribution(reports[i].teamId), events)
    requires forall i, j :: 0 <= i < j < |reports| ==> reports[i].teamId != reports[j].teamId
    requires forall e :: e in events && IsCall(e) ==> exists i :: 0 <= i < |reports| && reports[i].teamId == e.teamId
    ensures Sum(score, reports) == Sum(CallTokens(), events)
  {
    PartialScoresSum(score, events, reports);
    SumAgrees(ReportedTokens(reports), CallTokens(), events);
  }

  /** The ranking is a function of the bag of events: permuting the log changes
      no place, no score and no rank, in either order. */
  lemma RankingForgetsOrder(leq: (Total, Total) -> bool, events: seq<ContestEvent>, events': seq<ContestEvent>,
                            a: seq<ScoreReport>, b: seq<ScoreReport>)
    requires TotalPreorder(leq) && Antisymmetric(leq) && multiset(events) == multiset(events')
    requires IsRanking(leq, events, a) && IsRanking(leq, events', b)
    ensures Pairs(a) == Pairs(b) && |a| == |b|
    ensures forall i :: 0 <= i < |a| ==>
              a[i].teamId == b[i].teamId && a[i].score == b[i].score && a[i].rank == b[i].rank
  {
    SameTeams(events, events');
    SamePairs(leq, events, events', a, b);
    SamePairs(leq, events', events, b, a);
    DistinctPairs(leq, events, a);
    DistinctPairs(leq, events', b);
    DistinctMultiset(Pairs(a), Pairs(b));
    SortedUnique(leq, Pairs(a), Pairs(b));
    assert forall i :: 0 <= i < |a| ==>
      Pairs(a)[i] == (a[i].teamId, a[i].score) && Pairs(b)[i] == (b[i].teamId, b[i].score);
  }

  lemma SameTeams(events: seq<ContestEvent>, events': seq<ContestEvent>)
    requires multiset(events) == multiset(events')
    ensures CallingTeams(events) == CallingTeams(events')
  {
    forall e ensures e in events <==> e in events' {
      assert e in events <==> e in multiset(events);
      assert e in events' <==> e in multiset(events');
    }
  }

  lemma SamePairs(leq: (Total, Total) -> bool, events: seq<ContestEvent>, events': seq<ContestEvent>,
                  a: seq<ScoreReport>, b: seq<ScoreReport>)
    requires IsRanking(leq, events, a) && IsRanking(leq, events', b)
    requires multiset(events) == multiset(events') && CallingTeams(events) == CallingTeams(events')
    ensures forall p :: p in Pairs(a) ==> p in Pairs(b)
  {
    forall p | p in Pairs(a) ensures p in Pairs(b) {
      var i :| 0 <= i < |a| && p == (a[i].teamId, a[i].score);
      var j :| 0 <= j < |b| && b[j].teamId == a[i].teamId;
      SumForgetsOrder(Contribution(a[i].teamId), events, events');
      assert Pairs(b)[j] == p;
    }
  }

  lemma DistinctPairs(leq: (Total, Total) -> bool, events: seq<ContestEvent>, a: seq<ScoreReport>)
    requires IsRanking(leq, events, a)
    ensures Distinct(Pairs(a))
  {
    forall i, j | 0 <= i < j < |a| ensures Pairs(a)[i] != Pairs(a)[j] { assert a[i].teamId != a[j].teamId; }
  }

  lemma DistinctMultiset(s: seq<Total>, t: seq<Total>)
    requires Distinct(s) && Distinct(t) && forall x :: x in s <==> x in t
    ensures multiset(s) == multiset(t)
  {
    forall x ensures multiset(s)[x] == multiset(t)[x] {
      CountDistinct(s, x);
      CountDistinct(t, x);
    }
  }
}
