/** The team card, the individual signals and the documents that share one
    event-log root. */
module Cards {
  import opened Common
  import opened Sorting
  import opened CaptureClaim
  import opened Scoring

  // ------------------------------------------------------------------
  // Selection
  // ------------------------------------------------------------------

  /** By event index, then start time, then event id. */
  function CardOrder(): (ContestEvent, ContestEvent) -> bool
  {
    (a: ContestEvent, b: ContestEvent) =>
      || a.eventIndex < b.eventIndex
      || (a.eventIndex == b.eventIndex && a.startedAtMs < b.startedAtMs)
      || (a.eventIndex == b.eventIndex && a.startedAtMs == b.startedAtMs && StrLeq(a.eventId, b.eventId))
  }

  lemma CardOrderTotal()
    ensures TotalPreorder(CardOrder())
  {
    forall a: string, b: string ensures StrLeq(a, b) || StrLeq(b, a) { StrTotal(a, b); }
    forall a: string, b: string, c: string | StrLeq(a, b) && StrLeq(b, c) ensures StrLeq(a, c) {
      StrTransitive(a, b, c);
    }
  }

  /** `team_events`. */
  function TeamEvents(team: string, events: seq<ContestEvent>): seq<ContestEvent>
  {
    Sort(CardOrder(), Filter(OfTeam(team), events))
  }

  /** Earlier by index, then by start time, then by event id; or all three equal. */
  ghost predicate NotAfter(a: ContestEvent, b: ContestEvent)
  {
    if a.eventIndex != b.eventIndex then a.eventIndex < b.eventIndex
    else if a.startedAtMs != b.startedAtMs then a.startedAtMs < b.startedAtMs
    else Lexicographic(a.eventId, b.eventId)
  }

  /** The selection is the team's events, each as often as the log has it, in that order. */
  lemma TeamEventsInOrder(team: string, events: seq<ContestEvent>)
    ensures var es := TeamEvents(team, events);
            && (forall i, j :: 0 <= i < j < |es| ==> NotAfter(es[i], es[j]))
            && (forall e :: multiset(es)[e] == if e.teamId == team then multiset(events)[e] else 0)
  {
    var es := TeamEvents(team, events);
    CardOrderTotal();
    SortCorrect(CardOrder(), Filter(OfTeam(team), events));
    FilterCounts(OfTeam(team), events);
    forall i, j | 0 <= i < j < |es| ensures NotAfter(es[i], es[j]) {
      assert CardOrder()(es[i], es[j]);
      StrLeqIsLexicographic(es[i].eventId, es[j].eventId);
    }
  }

  datatype Ordering = Less | Equal | Greater

  function Compare(a: int, b: int): Ordering { if a < b then Less else if a == b then Equal else Greater }

  function CompareText(a: string, b: string): Ordering
  {
    if a == b then Equal else if StrLeq(a, b) then Less else Greater
  }

  function ThenWith(first: Ordering, next: Ordering): Ordering { if first == Equal then next else first }

  /** The comparator `team_cvm_document` sorts with. */
  function CompareEvents(a: ContestEvent, b: ContestEvent): Ordering
  {
    ThenWith(ThenWith(Compare(a.eventIndex, b.eventIndex), Compare(a.startedAtMs, b.startedAtMs)),
             CompareText(a.eventId, b.eventId))
  }

  function CardComparator(): (ContestEvent, ContestEvent) -> bool
  {
    (a: ContestEvent, b: ContestEvent) => CompareEvents(a, b) != Greater
  }

  /** The selection `team_cvm_document` makes for itself. */
  function CardSelection(team: string, events: seq<ContestEvent>): seq<ContestEvent>
  {
    Sort(CardComparator(), Filter(OfTeam(team), events))
  }

  lemma ComparatorsAgree(a: ContestEvent, b: ContestEvent)
    ensures CardComparator()(a, b) <==> CardOrder()(a, b)
  {
    StrTotal(a.eventId, b.eventId);
  }

  /** The card selects and orders as `team_events` does for the other documents. */
  lemma SelectionsAgree(team: string, events: seq<ContestEvent>)
    ensures CardSelection(team, events) == TeamEvents(team, events)
  {
    forall a: ContestEvent, b: ContestEvent ensures CardComparator()(a, b) <==> CardOrder()(a, b) {
      ComparatorsAgree(a, b);
    }
    SortAgrees(CardComparator(), CardOrder(), Filter(OfTeam(team), events));
  }

  // ------------------------------------------------------------------
  // Tallies
  // ------------------------------------------------------------------

  function Bump(m: map<string, nat>, k: string): map<string, nat> { m[k := GetOr(m, k, 0) + 1] }

  function BumpLabel(m: map<string, nat>, tag: Option<string>): map<string, nat>
  {
    if tag.Some? then Bump(m, tag.value) else m
  }

  /** How many events carry each tag. */
  function Tally(tag: ContestEvent -> Option<string>, es: seq<ContestEvent>): map<string, nat>
  {
    if es == [] then map[] else BumpLabel(Tally(tag, es[..|es| - 1]), tag(es[|es| - 1]))
  }

  lemma TallyPrefix(tag: ContestEvent -> Option<string>, es: seq<ContestEvent>, i: nat)
    requires i < |es|
    ensures Tally(tag, es[..i + 1]) == BumpLabel(Tally(tag, es[..i]), tag(es[i]))
  {
    assert es[..i + 1][..i] == es[..i];
  }

  lemma SumPrefix(f: ContestEvent -> int, es: seq<ContestEvent>, i: nat)
    requires i < |es|
    ensures Sum(f, es[..i + 1]) == Sum(f, es[..i]) + f(es[i])
  {
    assert es[..i + 1][..i] == es[..i];
  }

  function Tagged(tag: ContestEvent -> Option<string>, k: string): ContestEvent -> bool
  {
    (e: ContestEvent) => tag(e) == Some(k)
  }

  /** A tally counts, for every tag that occurs and no other, the events that carry it. */
  lemma {:induction false} TallyCounts(tag: ContestEvent -> Option<string>, es: seq<ContestEvent>, k: string)
    ensures k in Tally(tag, es) <==> exists e :: e in es && tag(e) == Some(k)
    ensures GetOr(Tally(tag, es), k, 0) == |Filter(Tagged(tag, k), es)|
  {
    if es != [] {
      var n := |es| - 1;
      TallyCounts(tag, es[..n], k);
      assert es == es[..n] + [es[n]];
    }
  }

  ghost function MapSum(m: map<string, nat>): nat
    decreases |m|
  {
    if m == map[] then 0 else var k :| k in m; m[k] + MapSum(m - {k})
  }

  lemma {:induction false} MapSumPick(m: map<string, nat>, k: string)
    requires k in m
    ensures MapSum(m) == m[k] + MapSum(m - {k})
    decreases |m|
  {
    var j :| j in m && MapSum(m) == m[j] + MapSum(m - {j});
    if j != k {
      MapSumPick(m - {j}, k);
      MapSumPick(m - {k}, j);
      assert (m - {j}) - {k} == (m - {k}) - {j};
    }
  }

  lemma MapSumBump(m: map<string, nat>, k: string)
    ensures MapSum(Bump(m, k)) == MapSum(m) + 1
  {
    var m' := Bump(m, k);
    MapSumPick(m', k);
    if k in m {
      MapSumPick(m, k);
      assert m' - {k} == m - {k};
    } else {
      assert m' - {k} == m;
    }
  }

  function Labelled(tag: ContestEvent -> Option<string>): ContestEvent -> int
  {
    (e: ContestEvent) => if tag(e).Some? then 1 else 0
  }

  /** The counts of a tally sum to the number of events that carry a tag. */
  lemma {:induction false} TallyConserves(tag: ContestEvent -> Option<string>, es: seq<ContestEvent>)
    ensures MapSum(Tally(tag, es)) == Sum(Labelled(tag), es)
  {
    if es != [] {
      var n := |es| - 1;
      TallyConserves(tag, es[..n]);
      if tag(es[n]).Some? { MapSumBump(Tally(tag, es[..n]), tag(es[n]).value); }
    }
  }

  lemma {:induction false} AllLabelled(tag: ContestEvent -> Option<string>, es: seq<ContestEvent>)
    requires forall e :: tag(e).Some?
    ensures Sum(Labelled(tag), es) == |es|
  {
    if es != [] { AllLabelled(tag, es[..|es| - 1]); }
  }

  // ------------------------------------------------------------------
  // The team card
  // ------------------------------------------------------------------

  function CapturedCalls(e: ContestEvent): int
  {
    if e.kind == "llm.call" then 1 else Max(GetOr(e.metrics, "llm_calls", 0), 0)
  }

  function Lookup(m: map<string, string>, k: string): Option<string> { if k in m then Some(m[k]) else None }

  function MethodLabel(): ContestEvent -> Option<string> { (e: ContestEvent) => Some(e.captureMethod) }
  function AssuranceLabel(): ContestEvent -> Option<string> { (e: ContestEvent) => Some(e.assurance) }
  function SessionLabel(): ContestEvent -> Option<string> { (e: ContestEvent) => Some(e.actor.agentSessionId) }
  function EnforcementLabel(): ContestEvent -> Option<string>
  {
    (e: ContestEvent) => Lookup(e.evidence, "enforcement_mode")
  }

  function ModelLabel(): ContestEvent -> Option<string> { (e: ContestEvent) => Lookup(e.subject, "model") }

  function ProfileLabel(): ContestEvent -> Option<string> { (e: ContestEvent) => Lookup(e.evidence, "ra_profile") }
  function PlatformTag(): ContestEvent -> Option<string> { (e: ContestEvent) => Lookup(e.evidence, "ra_platform") }
  function ProviderLabel(): ContestEvent -> Option<string> { (e: ContestEvent) => Lookup(e.subject, "provider") }

  /** The counters of `team_cvm_document`. */
  datatype Counters = Counters(
    captureMethods: map<string, nat>, assurance: map<string, nat>, enforcement: map<string, nat>,
    remoteAttestation: map<string, nat>, raPlatforms: map<string, nat>, models: map<string, nat>,
    providers: map<string, nat>, agentSessions: map<string, nat>,
    totalTokens: int, llmCalls: int, minTokens: Option<int>, maxTokens: Option<int>)

  function Lowest(es: seq<ContestEvent>): Option<int>
  {
    if es == [] then None else Some(Lower(Lowest(es[..|es| - 1]), TotalTokens(es[|es| - 1])))
  }

  function Highest(es: seq<ContestEvent>): Option<int>
  {
    if es == [] then None else Some(Higher(Highest(es[..|es| - 1]), TotalTokens(es[|es| - 1])))
  }

  function Lower(current: Option<int>, n: int): int { if current.None? then n else Min(current.value, n) }

  function Higher(current: Option<int>, n: int): int { if current.None? then n else Max(current.value, n) }

  /** What the counters mean: tallies, sums and extremes over the events. */
  function CountersOf(es: seq<ContestEvent>): Counters
  {
    Counters(Tally(MethodLabel(), es), Tally(AssuranceLabel(), es), Tally(EnforcementLabel(), es),
             Tally(ProfileLabel(), es), Tally(PlatformTag(), es), Tally(ModelLabel(), es),
             Tally(ProviderLabel(), es), Tally(SessionLabel(), es),
             Sum(TotalTokens, es), Sum(CapturedCalls, es), Lowest(es), Highest(es))
  }

  /** One event more. */
  function Counted(k: Counters, e: ContestEvent): Counters
  {
    Counters(Bump(k.captureMethods, e.captureMethod), Bump(k.assurance, e.assurance),
             BumpLabel(k.enforcement, Lookup(e.evidence, "enforcement_mode")),
             BumpLabel(k.remoteAttestation, Lookup(e.evidence, "ra_profile")),
             BumpLabel(k.raPlatforms, Lookup(e.evidence, "ra_platform")),
             BumpLabel(k.models, Lookup(e.subject, "model")),
             BumpLabel(k.providers, Lookup(e.subject, "provider")), Bump(k.agentSessions, e.actor.agentSessionId),
             k.totalTokens + TotalTokens(e), k.llmCalls + CapturedCalls(e),
             Some(Lower(k.minTokens, TotalTokens(e))), Some(Higher(k.maxTokens, TotalTokens(e))))
  }

  lemma CountersStep(es: seq<ContestEvent>, i: nat)
    requires i < |es|
    ensures CountersOf(es[..i + 1]) == Counted(CountersOf(es[..i]), es[i])
  {
    TallyPrefix(MethodLabel(), es, i);
    TallyPrefix(AssuranceLabel(), es, i);
    TallyPrefix(EnforcementLabel(), es, i);
    TallyPrefix(ProfileLabel(), es, i);
    TallyPrefix(PlatformTag(), es, i);
    TallyPrefix(ModelLabel(), es, i);
    TallyPrefix(ProviderLabel(), es, i);
    TallyPrefix(SessionLabel(), es, i);
    SumPrefix(TotalTokens, es, i);
    SumPrefix(CapturedCalls, es, i);
    assert es[..i + 1][..i] == es[..i];
  }

  datatype Card = Card(capturedEvents: nat, counters: Counters, eventLogRoot: string)

  function CardOf(c: Crypto, team: string, events: seq<ContestEvent>): Card
  {
    var es := CardSelection(team, events);
    Card(|es|, CountersOf(es), EventLogRoot(c, Hashes(c, es)))
  }

  /** The counting loop of `team_cvm_document`. */
  method TeamCard(c: Crypto, team: string, events: seq<ContestEvent>) returns (card: Card)
    ensures card == CardOf(c, team, events)
  {
    var es := CardSelection(team, events);
    var k := Counters(map[], map[], map[], map[], map[], map[], map[], map[], 0, 0, None, None);
    for i := 0 to |es|
      invariant k == CountersOf(es[..i])
    {
      var e := es[i];
      CountersStep(es, i);
      k := CountEvent(k, e);
    }
    assert es[..|es|] == es;
    card := Card(|es|, k, EventLogRoot(c, Hashes(c, es)));
  }

  /** The body of that loop, counter by counter. */
  method CountEvent(k: Counters, e: ContestEvent) returns (k': Counters)
    ensures k' == Counted(k, e)
  {
    var captureMethods, assurance := Bump(k.captureMethods, e.captureMethod), Bump(k.assurance, e.assurance);
    var enforcement := CountLabel(k.enforcement, e.evidence, "enforcement_mode");
    var remoteAttestation := CountLabel(k.remoteAttestation, e.evidence, "ra_profile");
    var raPlatforms := CountLabel(k.raPlatforms, e.evidence, "ra_platform");
    var models := CountLabel(k.models, e.subject, "model");
    var providers := CountLabel(k.providers, e.subject, "provider");
    var agentSessions := Bump(k.agentSessions, e.actor.agentSessionId);
    var tokens, llmCalls := TotalTokens(e), k.llmCalls;
    if e.kind == "llm.call" {
      llmCalls := llmCalls + 1;
    } else if "llm_calls" in e.metrics {
      llmCalls := llmCalls + Max(e.metrics["llm_calls"], 0);
    }
    var minTokens := if k.minTokens.None? then tokens else Min(k.minTokens.value, tokens);
    var maxTokens := if k.maxTokens.None? then tokens else Max(k.maxTokens.value, tokens);
    k' := Counters(captureMethods, assurance, enforcement, remoteAttestation, raPlatforms, models, providers,
                   agentSessions, k.totalTokens + tokens, llmCalls, Some(minTokens), Some(maxTokens));
  }

  /** Count the value of an optional entry, if it is there. */
  method CountLabel(m: map<string, nat>, entries: map<string, string>, key: string) returns (m': map<string, nat>)
    ensures m' == BumpLabel(m, Lookup(entries, key))
  {
    m' := m;
    if key in entries { m' := m'[entries[key] := GetOr(m', entries[key], 0) + 1]; }
  }

  /** Capture methods, assurance labels and sessions each account for every captured event. */
  lemma CardCountsConserve(c: Crypto, team: string, events: seq<ContestEvent>)
    ensures var card := CardOf(c, team, events);
            && MapSum(card.counters.captureMethods) == card.capturedEvents
            && MapSum(card.counters.assurance) == card.capturedEvents
            && MapSum(card.counters.agentSessions) == card.capturedEvents
            && card.capturedEvents == |Filter(OfTeam(team), events)|
  {
    var es := CardSelection(team, events);
    SelectionsAgree(team, events);
    TallyConserves(MethodLabel(), es);
    TallyConserves(AssuranceLabel(), es);
    TallyConserves(SessionLabel(), es);
    AllLabelled(MethodLabel(), es);
    AllLabelled(AssuranceLabel(), es);
    AllLabelled(SessionLabel(), es);
    CardOrderTotal();
    SortCorrect(CardOrder(), Filter(OfTeam(team), events));
    SameLength(es, Filter(OfTeam(team), events));
  }

  /** The optional labels account for exactly the events that carry them. */
  lemma LabelCountsConserve(c: Crypto, team: string, events: seq<ContestEvent>)
    ensures var k, es := CardOf(c, team, events).counters, TeamEvents(team, events);
            && MapSum(k.enforcement) == Sum(Labelled(EnforcementLabel()), es)
            && MapSum(k.remoteAttestation) == Sum(Labelled(ProfileLabel()), es)
            && MapSum(k.raPlatforms) == Sum(Labelled(PlatformTag()), es)
            && MapSum(k.models) == Sum(Labelled(ModelLabel()), es)
            && MapSum(k.providers) == Sum(Labelled(ProviderLabel()), es)
  {
    SelectionsAgree(team, events);
    var es := TeamEvents(team, events);
    TallyConserves(EnforcementLabel(), es);
    TallyConserves(ProfileLabel(), es);
    TallyConserves(PlatformTag(), es);
    TallyConserves(ModelLabel(), es);
    TallyConserves(ProviderLabel(), es);
  }

  function WithEvidence(name: string, value: string): ContestEvent -> bool
  {
    (e: ContestEvent) => name in e.evidence && e.evidence[name] == value
  }

  function WithSubject(name: string, value: string): ContestEvent -> bool
  {
    (e: ContestEvent) => name in e.subject && e.subject[name] == value
  }

  function Has(field: ContestEvent -> string, value: string): ContestEvent -> bool
  {
    (e: ContestEvent) => field(e) == value
  }

  /** The counter has, under each value, the number of the events that pass. */
  ghost predicate Counts(m: map<string, nat>, passing: string -> ContestEvent -> bool, es: seq<ContestEvent>)
  {
    forall k :: GetOr(m, k, 0) == |Filter(passing(k), es)|
  }

  lemma TallyIsCount(tag: ContestEvent -> Option<string>, passing: string -> ContestEvent -> bool,
                     es: seq<ContestEvent>)
    requires forall k, e :: passing(k)(e) <==> tag(e) == Some(k)
    ensures Counts(Tally(tag, es), passing, es)
  {
    forall k ensures GetOr(Tally(tag, es), k, 0) == |Filter(passing(k), es)| {
      TallyCounts(tag, es, k);
      FilterAgrees(Tagged(tag, k), passing(k), es);
    }
  }

  /** What each of the card's counters counts, field by field. */
  lemma CardCountsFields(c: Crypto, team: string, events: seq<ContestEvent>)
    ensures var k, es := CardOf(c, team, events).counters, TeamEvents(team, events);
            && Counts(k.captureMethods, v => Has((e: ContestEvent) => e.captureMethod, v), es)
            && Counts(k.assurance, v => Has((e: ContestEvent) => e.assurance, v), es)
            && Counts(k.agentSessions, v => Has((e: ContestEvent) => e.actor.agentSessionId, v), es)
  {
    SelectionsAgree(team, events);
    var es := TeamEvents(team, events);
    TallyIsCount(MethodLabel(), v => Has((e: ContestEvent) => e.captureMethod, v), es);
    TallyIsCount(AssuranceLabel(), v => Has((e: ContestEvent) => e.assurance, v), es);
    TallyIsCount(SessionLabel(), v => Has((e: ContestEvent) => e.actor.agentSessionId, v), es);
  }

  lemma CardCountsEntries(c: Crypto, team: string, events: seq<ContestEvent>)
    ensures var k, es := CardOf(c, team, events).counters, TeamEvents(team, events);
            && Counts(k.enforcement, v => WithEvidence("enforcement_mode", v), es)
            && Counts(k.remoteAttestation, v => WithEvidence("ra_profile", v), es)
            && Counts(k.raPlatforms, v => WithEvidence("ra_platform", v), es)
            && Counts(k.models, v => WithSubject("model", v), es)
            && Counts(k.providers, v => WithSubject("provider", v), es)
  {
    SelectionsAgree(team, events);
    var es := TeamEvents(team, events);
    TallyIsCount(EnforcementLabel(), v => WithEvidence("enforcement_mode", v), es);
    TallyIsCount(ProfileLabel(), v => WithEvidence("ra_profile", v), es);
    TallyIsCount(PlatformTag(), v => WithEvidence("ra_platform", v), es);
    TallyIsCount(ModelLabel(), v => WithSubject("model", v), es);
    TallyIsCount(ProviderLabel(), v => WithSubject("provider", v), es);
  }

  function IsModelCall(): ContestEvent -> bool { (e: ContestEvent) => e.kind == "llm.call" }

  function IsOther(): ContestEvent -> bool { (e: ContestEvent) => e.kind != "llm.call" }

  /** The calls an event of another kind reports, if it reports more than none. */
  function ReportedCalls(): ContestEvent -> int
  {
    (e: ContestEvent) => if "llm_calls" in e.metrics && e.metrics["llm_calls"] > 0 then e.metrics["llm_calls"] else 0
  }

  /** The calls of a list of events: one for each model call, and what the other events report. */
  lemma {:induction false} CallsExactly(es: seq<ContestEvent>)
    ensures Sum(CapturedCalls, es) == |Filter(IsModelCall(), es)| + Sum(ReportedCalls(), Filter(IsOther(), es))
  {
    if es != [] {
      var n := |es| - 1;
      CallsExactly(es[..n]);
      if es[n].kind != "llm.call" { SumSnoc(ReportedCalls(), Filter(IsOther(), es[..n]), es[n]); }
    }
  }

  lemma {:induction false} ExtremesBound(es: seq<ContestEvent>)
    requires es != []
    ensures Lowest(es).Some? && Highest(es).Some?
    ensures forall e :: e in es ==> Lowest(es).value <= TotalTokens(e) <= Highest(es).value
    ensures (exists e :: e in es && TotalTokens(e) == Lowest(es).value)
    ensures (exists e :: e in es && TotalTokens(e) == Highest(es).value)
  {
    var n := |es| - 1;
    assert es[n] in es && es == es[..n] + [es[n]];
    if n > 0 {
      ExtremesBound(es[..n]);
      var lo :| lo in es[..n] && TotalTokens(lo) == Lowest(es[..n]).value;
      var hi :| hi in es[..n] && TotalTokens(hi) == Highest(es[..n]).value;
      assert lo in es && hi in es;
    }
  }

  /** The card's token range is tight: it bounds every event of the team and both ends occur. */
  lemma CardRangeIsTight(c: Crypto, team: string, events: seq<ContestEvent>)
    ensures var k, es := CardOf(c, team, events).counters, TeamEvents(team, events);
            && (es == [] <==> k.minTokens.None?) && (es == [] <==> k.maxTokens.None?)
            && (forall e :: e in es ==> k.minTokens.value <= TotalTokens(e) <= k.maxTokens.value)
            && (es != [] ==> exists e :: e in es && TotalTokens(e) == k.minTokens.value)
            && (es != [] ==> exists e :: e in es && TotalTokens(e) == k.maxTokens.value)
  {
    SelectionsAgree(team, events);
    if TeamEvents(team, events) != [] { ExtremesBound(TeamEvents(team, events)); }
  }

  // ------------------------------------------------------------------
  // Individual signals
  // ------------------------------------------------------------------

  datatype Signal = Signal(
    session: Option<string>, capturedEvents: nat, totalTokens: int, llmCalls: int, todayTokens: int, todayLlmCalls: int,
    captureMethods: map<string, nat>, assurance: map<string, nat>, enforcement: map<string, nat>, eventLogRoot: string)

  /** What a signal is computed from: the team's log, and the start of the day in milliseconds. */
  datatype View = View(c: Crypto, team: string, events: seq<ContestEvent>, dayStart: nat)

  /** The session a signal is about: the one asked for, trimmed, or that of the latest event. */
  function SelectedSession(team: string, events: seq<ContestEvent>, requested: Option<string>): Option<string>
  {
    if requested.Some? && Trim(requested.value) != "" then Some(Trim(requested.value))
    else
      var es := TeamEvents(team, events);
      if es == [] then None else Some(es[|es| - 1].actor.agentSessionId)
  }

  function SelectedEvents(v: View, requested: Option<string>): seq<ContestEvent>
  {
    match SelectedSession(v.team, v.events, requested)
    case None => []
    case Some(session) => Filter(OfSession(session), TeamEvents(v.team, v.events))
  }

  function Since(dayStart: nat): ContestEvent -> bool { (e: ContestEvent) => e.completedAtMs >= dayStart }

  function SignalOf(v: View, requested: Option<string>): Signal
  {
    var es := SelectedEvents(v, requested);
    var today := Since(v.dayStart);
    Signal(SelectedSession(v.team, v.events, requested), |es|, Sum(TotalTokens, es), Sum(CapturedCalls, es),
           Sum(Restricted(TotalTokens, today), es), Sum(Restricted(CapturedCalls, today), es),
           Tally(MethodLabel(), es), Tally(AssuranceLabel(), es), Tally(EnforcementLabel(), es),
           EventLogRoot(v.c, Hashes(v.c, es)))
  }

  /** The sums of the loop in `individual_signal_document`. */
  method SignalSums(es: seq<ContestEvent>, dayStart: nat)
    returns (tokens: int, calls: int, todayTokens: int, todayCalls: int)
    ensures tokens == Sum(TotalTokens, es) && calls == Sum(CapturedCalls, es)
    ensures todayTokens == Sum(Restricted(TotalTokens, Since(dayStart)), es)
    ensures todayCalls == Sum(Restricted(CapturedCalls, Since(dayStart)), es)
  {
    tokens, calls, todayTokens, todayCalls := 0, 0, 0, 0;
    for i := 0 to |es|
      invariant tokens == Sum(TotalTokens, es[..i]) && calls == Sum(CapturedCalls, es[..i])
      invariant todayTokens == Sum(Restricted(TotalTokens, Since(dayStart)), es[..i])
      invariant todayCalls == Sum(Restricted(CapturedCalls, Since(dayStart)), es[..i])
    {
      assert es[..i + 1][..i] == es[..i];
      var c, t := CapturedCalls(es[i]), TotalTokens(es[i]);
      tokens := tokens + t;
      calls := calls + c;
      if es[i].completedAtMs >= dayStart {
        todayTokens := todayTokens + t;
        todayCalls := todayCalls + c;
      }
    }
    assert es[..|es|] == es;
  }

  /** And its tallies. */
  method SignalTallies(es: seq<ContestEvent>)
    returns (captureMethods: map<string, nat>, assurance: map<string, nat>, enforcement: map<string, nat>)
    ensures captureMethods == Tally(MethodLabel(), es) && assurance == Tally(AssuranceLabel(), es)
    ensures enforcement == Tally(EnforcementLabel(), es)
  {
    captureMethods, assurance, enforcement := map[], map[], map[];
    for i := 0 to |es|
      invariant captureMethods == Tally(MethodLabel(), es[..i]) && assurance == Tally(AssuranceLabel(), es[..i])
      invariant enforcement == Tally(EnforcementLabel(), es[..i])
    {
      var e := es[i];
      TallyPrefix(MethodLabel(), es, i);
      TallyPrefix(AssuranceLabel(), es, i);
      TallyPrefix(EnforcementLabel(), es, i);
      captureMethods := Bump(captureMethods, e.captureMethod);
      assurance := Bump(assurance, e.assurance);
      if "enforcement_mode" in e.evidence { enforcement := Bump(enforcement, e.evidence["enforcement_mode"]); }
    }
    assert es[..|es|] == es;
  }

  method IndividualSignal(v: View, requested: Option<string>) returns (signal: Signal)
    ensures signal == SignalOf(v, requested)
  {
    var session := SelectedSession(v.team, v.events, requested);
    var es: seq<ContestEvent> := [];
    if session.Some? { es := Filter(OfSession(session.value), TeamEvents(v.team, v.events)); }
    var tokens, calls, todayTokens, todayCalls := SignalSums(es, v.dayStart);
    var captureMethods, assurance, enforcement := SignalTallies(es);
    signal := Signal(session, |es|, tokens, calls, todayTokens, todayCalls, captureMethods, assurance, enforcement,
                     EventLogRoot(v.c, Hashes(v.c, es)));
  }

  /** An id a reader can ask for by name. */
  predicate Requestable(id: string) { id != "" && Trim(id) == id }

  function Restricted(f: ContestEvent -> int, p: ContestEvent -> bool): ContestEvent -> int
  {
    (e: ContestEvent) => if p(e) then f(e) else 0
  }

  lemma {:induction false} SumFilter(f: ContestEvent -> int, p: ContestEvent -> bool, es: seq<ContestEvent>)
    ensures Sum(f, Filter(p, es)) == Sum(Restricted(f, p), es)
  {
    if es != [] {
      var n := |es| - 1;
      SumFilter(f, p, es[..n]);
      if p(es[n]) { SumSnoc(f, Filter(p, es[..n]), es[n]); }
    }
  }

  function Within(key: ContestEvent -> string,
                  ids: seq<string>): ContestEvent -> bool { (e: ContestEvent) => key(e) in ids }

  function Outside(key: ContestEvent -> string,
                   ids: seq<string>): ContestEvent -> bool { (e: ContestEvent) => key(e) !in ids }

  function PerKey(key: ContestEvent -> string, f: ContestEvent -> int, es: seq<ContestEvent>): string -> int
  {
    id => Sum(f, Filter(ByKey(key, id), es))
  }

  /** Distinct keys partition the events that have them. */
  lemma {:induction false} KeysPartition(key: ContestEvent -> string, f: ContestEvent -> int, es: seq<ContestEvent>,
                                         ids: seq<string>)
    requires Distinct(ids)
    ensures Sum(PerKey(key, f, es), ids) == Sum(Restricted(f, Within(key, ids)), es)
  {
    if ids == [] {
      SumZero(Restricted(f, Within(key, ids)), es);
    } else {
      var n := |ids| - 1;
      var init := ids[..n];
      KeysPartition(key, f, es, init);
      SumFilter(f, ByKey(key, ids[n]), es);
      assert ids == init + [ids[n]];
      assert ids[n] !in init;
      SumAdds(Restricted(f, Within(key, ids)), Restricted(f, Within(key, init)), Restricted(f, ByKey(key, ids[n])), es);
    }
  }

  /** A sum over the events is what the given keys hold and what all others hold. */
  lemma KeysAndTheRest(key: ContestEvent -> string, f: ContestEvent -> int, es: seq<ContestEvent>, ids: seq<string>)
    requires Distinct(ids)
    ensures Sum(PerKey(key, f, es), ids) + Sum(Restricted(f, Outside(key, ids)), es) == Sum(f, es)
  {
    KeysPartition(key, f, es, ids);
    SumAdds(f, Restricted(f, Within(key, ids)), Restricted(f, Outside(key, ids)), es);
  }

  lemma SignalOfRequestable(v: View, id: string)
    requires Requestable(id)
    ensures var es, signal := TeamEvents(v.team, v.events), SignalOf(v, Some(id));
            && signal.session == Some(id)
            && signal.totalTokens == PerKey(SessionKey(), TotalTokens, es)(id)
            && signal.llmCalls == PerKey(SessionKey(), CapturedCalls, es)(id)
            && signal.capturedEvents == |Filter(OfSession(id), es)|
  {
  }

  ghost predicate AllRequestable(ids: seq<string>)
  {
    Distinct(ids) && forall i :: 0 <= i < |ids| ==> Requestable(ids[i])
  }

  function SignalTokens(v: View): string -> int { (id: string) => SignalOf(v, Some(id)).totalTokens }

  function SignalCalls(v: View): string -> int { (id: string) => SignalOf(v, Some(id)).llmCalls }

  function SignalCount(v: View): string -> int { (id: string) => SignalOf(v, Some(id)).capturedEvents }

  function OtherSessions(v: View, f: ContestEvent -> int, ids: seq<string>): int
  {
    Sum(Restricted(f, Outside(SessionKey(), ids)), TeamEvents(v.team, v.events))
  }

  /** The card's totals, without its tallies. */
  lemma CardTotals(c: Crypto, team: string, events: seq<ContestEvent>)
    ensures var card, es := CardOf(c, team, events), TeamEvents(team, events);
            && card.capturedEvents == |es|
            && card.counters.totalTokens == Sum(TotalTokens, es) && card.counters.llmCalls == Sum(CapturedCalls, es)
  {
    SelectionsAgree(team, events);
  }

  lemma SignalSumsArePerSession(v: View, ids: seq<string>)
    requires AllRequestable(ids)
    ensures var es := TeamEvents(v.team, v.events);
            && Sum(SignalTokens(v), ids) == Sum(PerKey(SessionKey(), TotalTokens, es), ids)
            && Sum(SignalCalls(v), ids) == Sum(PerKey(SessionKey(), CapturedCalls, es), ids)
  {
    var es := TeamEvents(v.team, v.events);
    forall i | 0 <= i < |ids|
      ensures SignalTokens(v)(ids[i]) == PerKey(SessionKey(), TotalTokens, es)(ids[i])
      ensures SignalCalls(v)(ids[i]) == PerKey(SessionKey(), CapturedCalls, es)(ids[i])
    {
      SignalOfRequestable(v, ids[i]);
    }
    IdSumAgrees(SignalTokens(v), PerKey(SessionKey(), TotalTokens, es), ids);
    IdSumAgrees(SignalCalls(v), PerKey(SessionKey(), CapturedCalls, es), ids);
  }

  lemma SignalsAgainstTeam(v: View, ids: seq<string>)
    requires AllRequestable(ids)
    ensures var es := TeamEvents(v.team, v.events);
            && Sum(SignalTokens(v), ids) + OtherSessions(v, TotalTokens, ids) == Sum(TotalTokens, es)
            && Sum(SignalCalls(v), ids) + OtherSessions(v, CapturedCalls, ids) == Sum(CapturedCalls, es)
  {
    SignalSumsArePerSession(v, ids);
    KeysAndTheRest(SessionKey(), TotalTokens, TeamEvents(v.team, v.events), ids);
    KeysAndTheRest(SessionKey(), CapturedCalls, TeamEvents(v.team, v.events), ids);
  }

  /** Signals against the card, exactly: over any distinct requestable ids, the
      signals' sums fall short of the card's by the events of all other sessions. */
  lemma SignalsAgainstCard(v: View, ids: seq<string>)
    requires AllRequestable(ids)
    ensures var k := CardOf(v.c, v.team, v.events).counters;
            && Sum(SignalTokens(v), ids) + OtherSessions(v, TotalTokens, ids) == k.totalTokens
            && Sum(SignalCalls(v), ids) + OtherSessions(v, CapturedCalls, ids) == k.llmCalls
  {
    SignalsAgainstTeam(v, ids);
    CardTotals(v.c, v.team, v.events);
  }

  lemma {:induction false} IdSumAgrees(f: string -> int, g: string -> int, ids: seq<string>)
    requires forall i :: 0 <= i < |ids| ==> f(ids[i]) == g(ids[i])
    ensures Sum(f, ids) == Sum(g, ids)
  {
    if ids != [] { IdSumAgrees(f, g, ids[..|ids| - 1]); }
  }

  lemma NothingOutside(key: ContestEvent -> string, f: ContestEvent -> int, es: seq<ContestEvent>, ids: seq<string>)
    requires forall e :: e in es ==> key(e) in ids
    ensures Sum(Restricted(f, Outside(key, ids)), es) == 0
  {
    var none := (e: ContestEvent) => 0;
    SumAgrees(Restricted(f, Outside(key, ids)), none, es);
    SumZero(none, es);
  }

  ghost predicate SessionsWithin(v: View, ids: seq<string>)
  {
    forall e :: e in v.events && e.teamId == v.team ==> e.actor.agentSessionId in ids
  }

  /** So if the ids cover the team's sessions, the signals sum to the card. */
  lemma SignalsSumToCard(v: View, ids: seq<string>)
    requires AllRequestable(ids) && SessionsWithin(v, ids)
    ensures var k := CardOf(v.c, v.team, v.events).counters;
            Sum(SignalTokens(v), ids) == k.totalTokens && Sum(SignalCalls(v), ids) == k.llmCalls
  {
    SignalsAgainstCard(v, ids);
    NoOtherSessions(v, ids);
    var k := CardOf(v.c, v.team, v.events).counters;
    ShortfallIsNone(Sum(SignalTokens(v), ids), OtherSessions(v, TotalTokens, ids), k.totalTokens);
    ShortfallIsNone(Sum(SignalCalls(v), ids), OtherSessions(v, CapturedCalls, ids), k.llmCalls);
  }

  lemma NoOtherSessions(v: View, ids: seq<string>)
    requires SessionsWithin(v, ids)
    ensures OtherSessions(v, TotalTokens, ids) == 0 && OtherSessions(v, CapturedCalls, ids) == 0
  {
    SessionsCovered(v, ids);
    NothingOutside(SessionKey(), TotalTokens, TeamEvents(v.team, v.events), ids);
    NothingOutside(SessionKey(), CapturedCalls, TeamEvents(v.team, v.events), ids);
  }

  lemma SessionsCovered(v: View, ids: seq<string>)
    ensures (forall e :: e in TeamEvents(v.team, v.events) ==> SessionKey()(e) in ids)
       <==> SessionsWithin(v, ids)
  {
    TeamEventsMembers(v.team, v.events);
  }

  lemma TeamEventsMembers(team: string, events: seq<ContestEvent>)
    ensures forall e :: e in TeamEvents(team, events) <==> e in events && e.teamId == team
  {
    var f := Filter(OfTeam(team), events);
    CardOrderTotal();
    SortCorrect(CardOrder(), f);
    FilterMembers(OfTeam(team), events);
    forall e ensures e in TeamEvents(team, events) <==> e in f {
      assert e in TeamEvents(team, events) <==> e in multiset(TeamEvents(team, events));
      assert e in f <==> e in multiset(f);
    }
  }

  function One(): ContestEvent -> int { (e: ContestEvent) => 1 }

  lemma {:induction false} SumOne(es: seq<ContestEvent>)
    ensures Sum(One(), es) == |es|
  {
    if es != [] { SumOne(es[..|es| - 1]); }
  }

  lemma {:induction false} OutsideCount(key: ContestEvent -> string, es: seq<ContestEvent>, ids: seq<string>)
    ensures 0 <= Sum(Restricted(One(), Outside(key, ids)), es)
    ensures Sum(Restricted(One(), Outside(key, ids)), es) == 0 <==> forall e :: e in es ==> key(e) in ids
  {
    if es != [] {
      var n := |es| - 1;
      OutsideCount(key, es[..n], ids);
      assert es == es[..n] + [es[n]];
    }
  }

  lemma CountsAgree(v: View, ids: seq<string>)
    requires AllRequestable(ids)
    ensures Sum(SignalCount(v), ids) + OtherSessions(v, One(), ids) == |TeamEvents(v.team, v.events)|
  {
    var es := TeamEvents(v.team, v.events);
    KeysAndTheRest(SessionKey(), One(), es, ids);
    SumOne(es);
    forall i | 0 <= i < |ids| ensures SignalCount(v)(ids[i]) == PerKey(SessionKey(), One(), es)(ids[i]) {
      SignalOfRequestable(v, ids[i]);
      SumOne(Filter(OfSession(ids[i]), es));
    }
    IdSumAgrees(SignalCount(v), PerKey(SessionKey(), One(), es), ids);
  }

  /** Every session id of the team can be asked for. */
  ghost predicate SessionsRequestable(v: View)
  {
    forall e :: e in v.events && e.teamId == v.team ==> Requestable(e.actor.agentSessionId)
  }

  /** `ids` are requestable, distinct, and all the requestable ones of the team. */
  ghost predicate RequestableSessions(v: View, ids: seq<string>)
  {
    && AllRequestable(ids)
    && forall e :: e in v.events && e.teamId == v.team && Requestable(e.actor.agentSessionId) ==>
         e.actor.agentSessionId in ids
  }

  lemma OthersAreUnrequestable(v: View, ids: seq<string>)
    requires RequestableSessions(v, ids)
    ensures OtherSessions(v, One(), ids) == 0 <==> SessionsRequestable(v)
  {
    OutsideCount(SessionKey(), TeamEvents(v.team, v.events), ids);
    SessionsCovered(v, ids);
  }

  /** The signals of all requestable sessions account for every captured event
      if and only if every session id of the team is non-empty and free of edge whitespace. */
  lemma SignalsCoverExactly(v: View, ids: seq<string>)
    requires RequestableSessions(v, ids)
    ensures Sum(SignalCount(v), ids) == CardOf(v.c, v.team, v.events).capturedEvents <==> SessionsRequestable(v)
  {
    NoShortfall(v, ids);
    OthersAreUnrequestable(v, ids);
  }

  lemma NoShortfall(v: View, ids: seq<string>)
    requires AllRequestable(ids)
    ensures Sum(SignalCount(v), ids) == CardOf(v.c, v.team, v.events).capturedEvents
       <==> OtherSessions(v, One(), ids) == 0
  {
    CountsAgainstCard(v, ids);
    ShortfallIsNone(Sum(SignalCount(v), ids), OtherSessions(v, One(), ids),
                    CardOf(v.c, v.team, v.events).capturedEvents);
  }

  lemma ShortfallIsNone(part: int, rest: int, whole: int)
    requires part + rest == whole
    ensures part == whole <==> rest == 0
  {
  }

  lemma CountsAgainstCard(v: View, ids: seq<string>)
    requires AllRequestable(ids)
    ensures Sum(SignalCount(v), ids) + OtherSessions(v, One(), ids) == CardOf(v.c, v.team, v.events).capturedEvents
  {
    CountsAgree(v, ids);
    CardTotals(v.c, v.team, v.events);
  }

  /** Without a name, or with a blank one, the signal is about the session of
      the team's last event, and about none if there is no event. */
  lemma DefaultSessionIsTheLast(team: string, events: seq<ContestEvent>, requested: Option<string>)
    requires requested.Some? ==> AllSpace(requested.value)
    ensures var es := TeamEvents(team, events);
            && SelectedSession(team, events, requested) == SelectedSession(team, events, None)
            && (es == [] <==> SelectedSession(team, events, None).None?)
            && (es != [] ==> SelectedSession(team, events, None) == Some(es[|es| - 1].actor.agentSessionId))
  {
    if requested.Some? {
      TrimUnique(requested.value, [], []);
      assert requested.value + [] + [] == requested.value;
    }
  }

  /** What a signal's own tallies count. */
  lemma SignalCountsFields(v: View, requested: Option<string>)
    ensures var signal, es := SignalOf(v, requested), SelectedEvents(v, requested);
            && Counts(signal.captureMethods, k => Has((e: ContestEvent) => e.captureMethod, k), es)
            && Counts(signal.assurance, k => Has((e: ContestEvent) => e.assurance, k), es)
            && Counts(signal.enforcement, k => WithEvidence("enforcement_mode", k), es)
  {
    var es := SelectedEvents(v, requested);
    TallyIsCount(MethodLabel(), k => Has((e: ContestEvent) => e.captureMethod, k), es);
    TallyIsCount(AssuranceLabel(), k => Has((e: ContestEvent) => e.assurance, k), es);
    TallyIsCount(EnforcementLabel(), k => WithEvidence("enforcement_mode", k), es);
  }

  /** Today's totals are those of the events completed no earlier than the start of the day. */
  lemma TodayIsAPart(v: View, requested: Option<string>)
    ensures var signal := SignalOf(v, requested);
            var today := Filter((e: ContestEvent) => !(e.completedAtMs < v.dayStart), SelectedEvents(v, requested));
            signal.todayTokens == Sum(TotalTokens, today) && signal.todayLlmCalls == Sum(CapturedCalls, today)
  {
    var es, late := SelectedEvents(v, requested), (e: ContestEvent) => !(e.completedAtMs < v.dayStart);
    FilterAgrees(Since(v.dayStart), late, es);
    SumFilter(TotalTokens, Since(v.dayStart), es);
    SumFilter(CapturedCalls, Since(v.dayStart), es);
  }

  /** A session whose id has edge whitespace, or is empty, is out of reach: no
      request by name selects it. */
  lemma UnrequestableIsUnreachable(team: string, events: seq<ContestEvent>, id: string, asked: string)
    requires !Requestable(id) && Trim(asked) != ""
    ensures SelectedSession(team, events, Some(asked)) != Some(id)
  {
    TrimIdempotent(asked);
  }

  // ------------------------------------------------------------------
  // One root
  // ------------------------------------------------------------------

  const EMPTY_ROOT := "sha256:empty"

  function Hashes(c: Crypto, es: seq<ContestEvent>): seq<string>
  {
    seq(|es|, i requires 0 <= i < |es| => c.sha256(c.encodeEvent(es[i])))
  }

  function Join(lines: seq<string>): string
  {
    if lines == [] then [] else if |lines| == 1 then lines[0] else lines[0] + ['\n'] + Join(lines[1..])
  }

  function EventLogRoot(c: Crypto, hashes: seq<string>): string
  {
    if hashes == [] then EMPTY_ROOT else c.sha256(c.utf8(Join(hashes)))
  }

  datatype Receipt = Receipt(eventId: string, eventHash: string, cbor: bytes)
  datatype ProofDocument = ProofDocument(eventLogRoot: string, eventHashes: seq<string>)
  datatype ReceiptsDocument = ReceiptsDocument(eventLogRoot: string, receipts: seq<Receipt>)
  datatype CredentialDocument = CredentialDocument(evidenceRoot: string, proofValue: string)

  function ProofOf(c: Crypto, team: string, events: seq<ContestEvent>): ProofDocument
  {
    var hashes := Hashes(c, TeamEvents(team, events));
    ProofDocument(EventLogRoot(c, hashes), hashes)
  }

  function ReceiptsOf(c: Crypto, team: string, events: seq<ContestEvent>): ReceiptsDocument
  {
    var es := TeamEvents(team, events);
    var receipts := seq(|es|, i requires 0 <= i < |es| =>
      Receipt(es[i].eventId, c.sha256(c.encodeEvent(es[i])), c.encodeEvent(es[i])));
    var hashes := seq(|receipts|, i requires 0 <= i < |receipts| => receipts[i].eventHash);
    ReceiptsDocument(EventLogRoot(c, hashes), receipts)
  }

  function CredentialOf(c: Crypto, team: string, events: seq<ContestEvent>): CredentialDocument
  {
    var root := EventLogRoot(c, Hashes(c, TeamEvents(team, events)));
    CredentialDocument(root, root)
  }

  /** What a verifier recomputes from the receipt bodies alone. */
  function RecomputedRoot(c: Crypto, receipts: seq<Receipt>): string
  {
    EventLogRoot(c, seq(|receipts|, i requires 0 <= i < |receipts| => c.sha256(receipts[i].cbor)))
  }

  /** Card, proof, receipts and credential carry one root, and it is the one
      the receipt bodies hash to. */
  lemma OneRoot(c: Crypto, team: string, events: seq<ContestEvent>)
    ensures var root := CardOf(c, team, events).eventLogRoot;
            && root == ProofOf(c, team, events).eventLogRoot
            && root == ReceiptsOf(c, team, events).eventLogRoot
            && root == CredentialOf(c, team, events).proofValue == CredentialOf(c, team, events).evidenceRoot
            && root == RecomputedRoot(c, ReceiptsOf(c, team, events).receipts)
            && |ProofOf(c, team, events).eventHashes| == CardOf(c, team, events).capturedEvents
  {
    SelectionsAgree(team, events);
    var es, receipts := TeamEvents(team, events), ReceiptsOf(c, team, events).receipts;
    assert seq(|receipts|, i requires 0 <= i < |receipts| => receipts[i].eventHash) == Hashes(c, es);
    assert seq(|receipts|, i requires 0 <= i < |receipts| => c.sha256(receipts[i].cbor)) == Hashes(c, es);
  }

  /** The receipts are the team's events in order: each names its event, hashes
      to the listed hash, and decodes to the event. */
  lemma ReceiptsDecode(c: Crypto, team: string, events: seq<ContestEvent>)
    requires Sound(c)
    ensures var es, receipts := TeamEvents(team, events), ReceiptsOf(c, team, events).receipts;
            && |receipts| == |es| && |ProofOf(c, team, events).eventHashes| == |es|
            && forall i :: 0 <= i < |es| ==>
                 && receipts[i].eventId == es[i].eventId && c.decodeEvent(receipts[i].cbor) == Some(es[i])
                 && receipts[i].eventHash == c.sha256(receipts[i].cbor) == ProofOf(c, team, events).eventHashes[i]
  {
    var es := TeamEvents(team, events);
    assert forall i :: 0 <= i < |es| ==> c.decodeEvent(c.encodeEvent(es[i])) == Some(es[i]);
  }

  /** Hash strings are lines, none is the marker of the empty log, and text encoding is injective. */
  ghost predicate HashText(c: Crypto)
  {
    && (forall b: bytes :: '\n' !in c.sha256(b) && c.sha256(b) != EMPTY_ROOT)
    && (forall a: string, b: string :: c.utf8(a) == c.utf8(b) ==> a == b)
  }

  ghost predicate Lines(s: seq<string>) { forall i :: 0 <= i < |s| ==> '\n' !in s[i] }

  lemma CutLine(a: string, ra: string, b: string, rb: string)
    requires '\n' !in a && '\n' !in b && a + ['\n'] + ra == b + ['\n'] + rb
    ensures a == b && ra == rb
  {
    var x, y := a + ['\n'] + ra, b + ['\n'] + rb;
    assert x[|a|] == '\n' && y[|b|] == '\n';
    assert forall k :: 0 <= k < |a| ==> x[k] == a[k];
    assert forall k :: 0 <= k < |b| ==> y[k] == b[k];
    assert a == x[..|a|] && b == y[..|b|] && ra == x[|a| + 1..] && rb == y[|b| + 1..];
  }

  lemma JoinBreaks(s: seq<string>)
    ensures |s| > 1 ==> '\n' in Join(s)
  {
  }

  /** Joining lines is injective on non-empty lists. */
  lemma {:induction false} JoinInjective(s: seq<string>, t: seq<string>)
    requires s != [] && t != [] && Lines(s) && Lines(t) && Join(s) == Join(t)
    ensures s == t
    decreases |s|
  {
    JoinBreaks(s);
    JoinBreaks(t);
    if |s| > 1 {
      CutLine(s[0], Join(s[1..]), t[0], Join(t[1..]));
      JoinInjective(s[1..], t[1..]);
      assert s == [s[0]] + s[1..] && t == [t[0]] + t[1..];
    }
  }

  /** The root determines the ordered hash list. */
  lemma RootDeterminesHashes(c: Crypto, s: seq<string>, t: seq<string>)
    requires InjectiveHash(c) && HashText(c) && Lines(s) && Lines(t)
    requires EventLogRoot(c, s) == EventLogRoot(c, t)
    ensures s == t
  {
    if s != [] && t != [] { JoinInjective(s, t); }
  }

  /** And through it the ordered events. */
  lemma RootDeterminesEvents(c: Crypto, s: seq<ContestEvent>, t: seq<ContestEvent>)
    requires InjectiveHash(c) && HashText(c) && Sound(c)
    requires EventLogRoot(c, Hashes(c, s)) == EventLogRoot(c, Hashes(c, t))
    ensures s == t
  {
    var hs, ht := Hashes(c, s), Hashes(c, t);
    RootDeterminesHashes(c, hs, ht);
    forall i | 0 <= i < |s| ensures s[i] == t[i] {
      assert hs[i] == ht[i];
      assert c.decodeEvent(c.encodeEvent(s[i])) == Some(s[i]) && c.decodeEvent(c.encodeEvent(t[i])) == Some(t[i]);
    }
  }

  /** A signal's root determines the events the signal is about. */
  lemma SignalRootDeterminesEvents(v: View, requested: Option<string>, w: View, requested': Option<string>)
    requires v.c == w.c && InjectiveHash(v.c) && HashText(v.c) && Sound(v.c)
    requires SignalOf(v, requested).eventLogRoot == SignalOf(w, requested').eventLogRoot
    ensures SelectedEvents(v, requested) == SelectedEvents(w, requested')
  {
    RootDeterminesEvents(v.c, SelectedEvents(v, requested), SelectedEvents(w, requested'));
  }

  // ------------------------------------------------------------------
  // When the root ignores the order of the log
  // ------------------------------------------------------------------

  lemma {:induction false} FilterConcat(p: ContestEvent -> bool, s: seq<ContestEvent>, t: seq<ContestEvent>)
    ensures Filter(p, s + t) == Filter(p, s) + Filter(p, t)
  {
    if t == [] {
      assert s + t == s;
    } else {
      var n := |t| - 1;
      assert s + t == (s + t[..n]) + [t[n]];
      FilterConcat(p, s, t[..n]);
      FilterSnoc(p, s + t[..n], t[n]);
    }
  }

  lemma {:induction false} FilterFilter(p: ContestEvent -> bool, q: ContestEvent -> bool, r: ContestEvent -> bool,
                                        s: seq<ContestEvent>)
    requires forall e :: r(e) <==> p(e) && q(e)
    ensures Filter(p, Filter(q, s)) == Filter(r, s)
  {
    if s != [] {
      var n := |s| - 1;
      FilterFilter(p, q, r, s[..n]);
      if q(s[n]) { FilterSnoc(p, Filter(q, s[..n]), s[n]); }
    }
  }

  /** The element at a position that passes the filter is found right after the filtered prefix. */
  lemma FilterPosition(p: ContestEvent -> bool, s: seq<ContestEvent>, i: nat)
    requires i < |s| && p(s[i])
    ensures |Filter(p, s[..i])| < |Filter(p, s)| && Filter(p, s)[|Filter(p, s[..i])|] == s[i]
  {
    assert s == s[..i + 1] + s[i + 1..] && s[..i + 1] == s[..i] + [s[i]];
    FilterConcat(p, s[..i + 1], s[i + 1..]);
    FilterSnoc(p, s[..i], s[i]);
  }

  function SameKey(a: ContestEvent): ContestEvent -> bool
  {
    (e: ContestEvent) => CardOrder()(e, a) && CardOrder()(a, e)
  }

  function SameKeyOfTeam(a: ContestEvent): ContestEvent -> bool
  {
    (e: ContestEvent) => SameKey(a)(e) && OfTeam(a.teamId)(e)
  }

  function Swapped(s: seq<ContestEvent>, i: nat, j: nat): seq<ContestEvent>
    requires i < j < |s|
  {
    s[i := s[j]][j := s[i]]
  }

  lemma SwapKeepsElements(s: seq<ContestEvent>, i: nat, j: nat)
    requires i < j < |s|
    ensures multiset(Swapped(s, i, j)) == multiset(s)
  {
  }

  /** A filter that passes both sees the exchange. */
  lemma SwapSeen(r: ContestEvent -> bool, s: seq<ContestEvent>, i: nat, j: nat)
    requires i < j < |s| && s[i] != s[j] && r(s[i]) && r(s[j])
    ensures Filter(r, s) != Filter(r, Swapped(s, i, j))
  {
    var t := Swapped(s, i, j);
    FilterPosition(r, s, i);
    FilterPosition(r, t, i);
    assert s[..i] == t[..i];
  }

  lemma SameKeyTies(a: ContestEvent)
    ensures TieClass(CardOrder(), SameKey(a))
  {
    CardOrderTotal();
    var leq := CardOrder();
    forall x: ContestEvent, y: ContestEvent | SameKey(a)(x) && SameKey(a)(y) ensures leq(x, y) {
      assert leq(x, a) && leq(a, y);
    }
  }

  /** By stability, the team's sorted list still shows the log's order among the events tied with `a`. */
  lemma SortedShowsTies(a: ContestEvent, s: seq<ContestEvent>)
    ensures Filter(SameKey(a), TeamEvents(a.teamId, s)) == Filter(SameKeyOfTeam(a), s)
  {
    SameKeyTies(a);
    SortStable(CardOrder(), SameKey(a), Filter(OfTeam(a.teamId), s));
    FilterFilter(SameKey(a), OfTeam(a.teamId), SameKeyOfTeam(a), s);
  }

  /** Exchanging two different tied events of a team changes the team's sorted list. */
  lemma SwapShows(s: seq<ContestEvent>, i: nat, j: nat)
    requires i < j < |s| && s[i] != s[j] && s[i].teamId == s[j].teamId && SameKey(s[i])(s[j])
    ensures TeamEvents(s[i].teamId, s) != TeamEvents(s[i].teamId, Swapped(s, i, j))
  {
    var a := s[i];
    SortedShowsTies(a, s);
    SortedShowsTies(a, Swapped(s, i, j));
    CardOrderTotal();
    assert CardOrder()(a, a);
    SwapSeen(SameKeyOfTeam(a), s, i, j);
  }

  /** The root a team shows for a log. */
  function TeamRoot(c: Crypto, team: string, events: seq<ContestEvent>): string
  {
    EventLogRoot(c, Hashes(c, TeamEvents(team, events)))
  }

  lemma RootIgnoresOrder(c: Crypto, team: string, events: seq<ContestEvent>, events': seq<ContestEvent>)
    requires TieFree(CardOrder(), Filter(OfTeam(team), events)) && multiset(events) == multiset(events')
    ensures TeamEvents(team, events) == TeamEvents(team, events')
  {
    var f, f' := Filter(OfTeam(team), events), Filter(OfTeam(team), events');
    CardOrderTotal();
    FilterCounts(OfTeam(team), events);
    FilterCounts(OfTeam(team), events');
    assert multiset(f) == multiset(f');
    SortForgetsOrder(CardOrder(), f, f');
  }

  lemma TieShows(c: Crypto, team: string, events: seq<ContestEvent>, a: ContestEvent,
                 b: ContestEvent) returns (other: seq<ContestEvent>)
    requires a in events && b in events && a.teamId == b.teamId == team && a != b
    requires CardOrder()(a, b) && CardOrder()(b, a)
    ensures multiset(other) == multiset(events) && TeamEvents(team, other) != TeamEvents(team, events)
  {
    var i :| 0 <= i < |events| && events[i] == a;
    var j :| 0 <= j < |events| && events[j] == b;
    var lo, hi := Min(i, j), Max(i, j);
    SwapKeepsElements(events, lo, hi);
    SwapShows(events, lo, hi);
    other := Swapped(events, lo, hi);
  }

  /** Different selections have different roots. */
  lemma RootsDiffer(c: Crypto, team: string, events: seq<ContestEvent>, other: seq<ContestEvent>)
    requires InjectiveHash(c) && HashText(c) && Sound(c) && TeamEvents(team, other) != TeamEvents(team, events)
    ensures TeamRoot(c, team, other) != TeamRoot(c, team, events)
  {
    if TeamRoot(c, team, other) == TeamRoot(c, team, events) {
      RootDeterminesEvents(c, TeamEvents(team, other), TeamEvents(team, events));
    }
  }

  /** The root ignores the order of the log exactly when no two different
      events of the team share index, start time and event id. */
  lemma RootIgnoresOrderExactly(c: Crypto, team: string, events: seq<ContestEvent>)
    requires InjectiveHash(c) && HashText(c) && Sound(c)
    ensures (forall other :: multiset(other) == multiset(events) ==>
            TeamRoot(c, team, other) == TeamRoot(c, team, events))
       <==> TieFree(CardOrder(), Filter(OfTeam(team), events))
  {
    var f := Filter(OfTeam(team), events);
    if TieFree(CardOrder(), f) {
      forall other | multiset(other) == multiset(events) ensures TeamRoot(c, team, other) == TeamRoot(c, team, events) {
        RootIgnoresOrder(c, team, events, other);
      }
    } else {
      var a, b :| a in f && b in f && CardOrder()(a, b) && CardOrder()(b, a) && a != b;
      FilterMembers(OfTeam(team), events);
      var other := TieShows(c, team, events, a, b);
      RootsDiffer(c, team, events, other);
    }
  }
}
