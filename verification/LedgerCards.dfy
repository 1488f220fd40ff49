/** From the ledger to the cards: what the event service logged is what the
    team cards count. */
module LedgerCards {
  import opened Common
  import opened Sorting
  import opened EatChain
  import opened CaptureClaim
  import opened Scoring
  import opened Cards
  import Service = EventService

  /** The events of a log, in order; bodies that do not decode are skipped. */
  function Loaded(c: Crypto, log: seq<bytes>): seq<ContestEvent>
  {
    if log == [] then []
    else
      var n := |log| - 1;
      match EventFromCbor(c, log[n])
      case None => Loaded(c, log[..n])
      case Some(e) => Loaded(c, log[..n]) + [e]
  }

  /** `load_captured_events`; `None` is the error for an id that cannot name a log file. */
  method LoadCapturedEvents(c: Crypto, logs: map<string, seq<bytes>>, id: string) returns (r: Option<seq<ContestEvent>>)
    ensures r == if Service.ValidEventId(id) then Some(Loaded(c, GetOr(logs, id, []))) else None
  {
    if !Service.ValidEventId(id) { return None; }
    if id !in logs { return Some([]); }
    var log := logs[id];
    var events: seq<ContestEvent> := [];
    for i := 0 to |log|
      invariant events == Loaded(c, log[..i])
    {
      assert log[..i + 1][..i] == log[..i];
      var decoded := EventFromCbor(c, log[i]);
      if decoded.Some? { events := events + [decoded.value]; }
    }
    assert log[..|log|] == log;
    return Some(events);
  }

  /** Loading is body by body: a body that decodes is one event, one that does not is none. */
  lemma {:induction false} LoadedConcat(c: Crypto, a: seq<bytes>, b: seq<bytes>)
    ensures Loaded(c, a + b) == Loaded(c, a) + Loaded(c, b)
  {
    if b == [] {
      assert a + b == a;
    } else {
      var n := |b| - 1;
      assert (a + b)[..|a + b| - 1] == a + b[..n];
      LoadedConcat(c, a, b[..n]);
    }
  }

  lemma LoadedOne(c: Crypto, body: bytes)
    ensures (forall e :: !IsEvent(c, body, e)) ==> Loaded(c, [body]) == []
    ensures forall e :: IsEvent(c, body, e) ==> Loaded(c, [body]) == [e]
  {
    assert [body][..0] == [];
    if EventFromCbor(c, body).Some? { assert IsEvent(c, body, EventFromCbor(c, body).value); }
  }

  ghost predicate Decodes(c: Crypto, log: seq<bytes>) { forall b :: b in log ==> EventFromCbor(c, b).Some? }

  function BodyOfTeam(c: Crypto, team: string): bytes -> bool
  {
    (b: bytes) => EventFromCbor(c, b).Some? && EventFromCbor(c, b).value.teamId == team
  }

  /** A log of decodable bodies loads body for body, team by team. */
  lemma {:induction false} LoadedBodyForBody(c: Crypto, log: seq<bytes>, team: string)
    requires Decodes(c, log)
    ensures |Loaded(c, log)| == |log|
    ensures |Filter(OfTeam(team), Loaded(c, log))| == |Filter(BodyOfTeam(c, team), log)|
  {
    if log != [] {
      var n := |log| - 1;
      assert log[n] in log;
      assert forall b :: b in log[..n] ==> b in log;
      LoadedBodyForBody(c, log[..n], team);
      FilterSnoc(OfTeam(team), Loaded(c, log[..n]), EventFromCbor(c, log[n]).value);
    }
  }

  lemma {:induction false} FilterDistinct(p: bytes -> bool, log: seq<bytes>)
    requires Distinct(log)
    ensures Distinct(Filter(p, log))
  {
    if log != [] {
      var n := |log| - 1;
      FilterDistinct(p, log[..n]);
      FilterMembers(p, log[..n]);
    }
  }

  lemma LedgerDecodes(c: Crypto, lib: EatLib, steps: seq<Service.Step>, id: string)
    ensures Decodes(c, Service.LogOf(Service.Run(c, lib, steps), id))
  {
    var s := Service.Run(c, lib, steps);
    Service.RunKeepsInv(c, lib, steps);
    forall b | b in Service.LogOf(s, id) ensures EventFromCbor(c, b).Some? { assert Service.Vouched(c, lib, s, id, b); }
  }

  /** After every run, a card computed from the ledger counts the team's logged
      bodies, and each of them once if every crash found its list saved. */
  lemma CardCountsLedger(c: Crypto, lib: EatLib, steps: seq<Service.Step>, id: string, team: string)
    ensures var log := Service.LogOf(Service.Run(c, lib, steps), id);
            var bodies := Filter(BodyOfTeam(c, team), log);
            && CardOf(c, team, Loaded(c, log)).capturedEvents == |bodies|
            && (Service.SafeCrashes(c, lib, steps, id) ==> Distinct(bodies))
  {
    var log := Service.LogOf(Service.Run(c, lib, steps), id);
    LedgerDecodes(c, lib, steps, id);
    LoadedBodyForBody(c, log, team);
    CardCountsConserve(c, team, Loaded(c, log));
    Service.LedgerIndexAgreement(c, lib, steps, id);
    if Service.SafeCrashes(c, lib, steps, id) { FilterDistinct(BodyOfTeam(c, team), log); }
  }

  function CapturedBy(c: Crypto, events: seq<ContestEvent>): string -> int
  {
    (team: string) => CardOf(c, team, events).capturedEvents
  }

  lemma CapturedPerTeam(c: Crypto, events: seq<ContestEvent>, team: string)
    ensures CapturedBy(c, events)(team) == PerKey(TeamKey(), One(), events)(team)
  {
    CardCountsConserve(c, team, events);
    SumOne(Filter(OfTeam(team), events));
  }

  /** Over distinct teams that include every event's, the cards count every event once. */
  lemma CardsCountEvents(c: Crypto, events: seq<ContestEvent>, teams: seq<string>)
    requires Distinct(teams) && forall e :: e in events ==> e.teamId in teams
    ensures Sum(CapturedBy(c, events), teams) == |events|
  {
    forall i | 0 <= i < |teams| ensures CapturedBy(c, events)(teams[i]) == PerKey(TeamKey(), One(), events)(teams[i]) {
      CapturedPerTeam(c, events, teams[i]);
    }
    IdSumAgrees(CapturedBy(c, events), PerKey(TeamKey(), One(), events), teams);
    TeamsCountEvents(events, teams);
  }

  lemma TeamsCountEvents(events: seq<ContestEvent>, teams: seq<string>)
    requires Distinct(teams) && forall e :: e in events ==> e.teamId in teams
    ensures Sum(PerKey(TeamKey(), One(), events), teams) == |events|
  {
    KeysAndTheRest(TeamKey(), One(), events, teams);
    NothingOutside(TeamKey(), One(), events, teams);
    SumOne(events);
  }

  /** The list falls short of the log exactly when some crash found it unsaved. */
  lemma ShortListExactly(c: Crypto, lib: EatLib, steps: seq<Service.Step>, id: string)
    ensures var s := Service.Run(c, lib, steps);
            |Service.HashesOf(s.store, id)| == |Service.LogOf(s, id)| <==> Service.SafeCrashes(c, lib, steps, id)
  {
    var s := Service.Run(c, lib, steps);
    Service.RunKeepsInv(c, lib, steps);
    assert Service.IndexKept(c, s, id);
    Service.AgreementSurvivesExactly(c, lib, steps, id);
  }

  /** The service's count never exceeds the log, and equals it, below saturation, under the same condition. */
  lemma CountIsLogExactly(c: Crypto, lib: EatLib, steps: seq<Service.Step>, id: string)
    ensures var s := Service.Run(c, lib, steps);
            CountFollows(Service.CountOf(s.store, id), |Service.LogOf(s, id)|, Service.SafeCrashes(c, lib, steps, id))
  {
    Service.LedgerIndexAgreement(c, lib, steps, id);
    ShortListExactly(c, lib, steps, id);
  }

  /** Captured events of the cards computed from a log, summed over the teams. */
  function CapturedOverTeams(c: Crypto, log: seq<bytes>, teams: seq<string>): int
  {
    Sum(CapturedBy(c, Loaded(c, log)), teams)
  }

  ghost predicate TeamsOf(c: Crypto, log: seq<bytes>, teams: seq<string>)
  {
    Distinct(teams) && forall e :: e in Loaded(c, log) ==> e.teamId in teams
  }

  lemma CardsCountLog(c: Crypto, log: seq<bytes>, teams: seq<string>)
    requires Decodes(c, log) && TeamsOf(c, log, teams)
    ensures CapturedOverTeams(c, log, teams) == |log|
  {
    LoadedBodyForBody(c, log, "");
    CardsCountEvents(c, Loaded(c, log), teams);
  }

  /** The count keeps step with the captured events, below saturation exactly when the run is safe. */
  ghost predicate CountFollows(count: nat, captured: int, safe: bool)
  {
    count <= captured && (captured <= U64_MAX ==> (count == captured <==> safe))
  }

  lemma CardsSumToLog(c: Crypto, lib: EatLib, steps: seq<Service.Step>, id: string, teams: seq<string>)
    requires TeamsOf(c, Service.LogOf(Service.Run(c, lib, steps), id), teams)
    ensures var log := Service.LogOf(Service.Run(c, lib, steps), id); CapturedOverTeams(c, log, teams) == |log|
  {
    LedgerDecodes(c, lib, steps, id);
    CardsCountLog(c, Service.LogOf(Service.Run(c, lib, steps), id), teams);
  }

  /** Conservation from ledger to cards: captured events summed over the teams
      are the log bodies; the service's own count never exceeds them, and equals
      them, below saturation, if and only if every crash found the list saved. */
  lemma CardsSumToLedger(c: Crypto, lib: EatLib, steps: seq<Service.Step>, id: string, teams: seq<string>)
    requires TeamsOf(c, Service.LogOf(Service.Run(c, lib, steps), id), teams)
    ensures var s := Service.Run(c, lib, steps);
            var captured := CapturedOverTeams(c, Service.LogOf(s, id), teams);
            && captured == |Service.LogOf(s, id)|
            && CountFollows(Service.CountOf(s.store, id), captured, Service.SafeCrashes(c, lib, steps, id))
  {
    CardsSumToLog(c, lib, steps, id, teams);
    CountIsLogExactly(c, lib, steps, id);
  }

  // ------------------------------------------------------------------
  // Bodies and events
  // ------------------------------------------------------------------

  /** No two logged bodies decode to one event. */
  ghost predicate OneBodyPerEvent(c: Crypto, log: seq<bytes>)
  {
    forall b, b' :: b in log && b' in log && b != b' ==> EventFromCbor(c, b) != EventFromCbor(c, b')
  }

  lemma {:induction false} LoadedAt(c: Crypto, log: seq<bytes>)
    requires Decodes(c, log)
    ensures |Loaded(c, log)| == |log|
    ensures forall i :: 0 <= i < |log| ==> EventFromCbor(c, log[i]) == Some(Loaded(c, log)[i])
  {
    if log != [] {
      var n := |log| - 1;
      assert log[n] in log;
      assert forall b :: b in log[..n] ==> b in log;
      LoadedAt(c, log[..n]);
    }
  }

  lemma LoadedOnceExactly(c: Crypto, log: seq<bytes>)
    requires Decodes(c, log)
    ensures Distinct(Loaded(c, log)) <==> Distinct(log) && OneBodyPerEvent(c, log)
  {
    var events := Loaded(c, log);
    LoadedAt(c, log);
    if Distinct(events) {
      forall b, b' | b in log && b' in log && b != b' ensures EventFromCbor(c, b) != EventFromCbor(c, b') {
        var i :| 0 <= i < |log| && log[i] == b;
        var j :| 0 <= j < |log| && log[j] == b';
      }
      forall i, j | 0 <= i < j < |log| ensures log[i] != log[j] { assert events[i] != events[j]; }
    }
    if Distinct(log) && OneBodyPerEvent(c, log) {
      forall i, j | 0 <= i < j < |events| ensures events[i] != events[j] { assert log[i] in log && log[j] in log; }
    }
  }

  lemma TeamsRepeatExactly(events: seq<ContestEvent>)
    ensures (forall team :: Distinct(Filter(OfTeam(team), events))) <==> Distinct(events)
  {
    DistinctExactly(events);
    forall team: string ensures Distinct(events) ==> Distinct(Filter(OfTeam(team), events)) {
      FilterCounts(OfTeam(team), events);
      DistinctExactly(Filter(OfTeam(team), events));
    }
    if !Distinct(events) {
      var x :| multiset(events)[x] > 1;
      FilterCounts(OfTeam(x.teamId), events);
      DistinctExactly(Filter(OfTeam(x.teamId), events));
      assert !Distinct(Filter(OfTeam(x.teamId), events));
    }
  }

  /** The different events of a team. */
  ghost function TeamSet(events: seq<ContestEvent>, team: string): set<ContestEvent>
  {
    set e | e in Filter(OfTeam(team), events)
  }

  /** Every card computed from the events counts each of its team's events once. */
  ghost predicate CardsCountOnce(c: Crypto, events: seq<ContestEvent>)
  {
    forall team :: CardOf(c, team, events).capturedEvents == |TeamSet(events, team)|
  }

  lemma CardCountsOnceExactly(c: Crypto, events: seq<ContestEvent>, team: string)
    ensures CardOf(c, team, events).capturedEvents == |TeamSet(events, team)|
       <==> Distinct(Filter(OfTeam(team), events))
  {
    CardCountsConserve(c, team, events);
    SizeExactly(Filter(OfTeam(team), events));
  }

  lemma CardsCountOnceIfDistinct(c: Crypto, events: seq<ContestEvent>)
    ensures CardsCountOnce(c, events) <==> Distinct(events)
  {
    forall team: string
      ensures CardOf(c, team, events).capturedEvents == |TeamSet(events, team)|
         <==> Distinct(Filter(OfTeam(team), events))
    {
      CardCountsOnceExactly(c, events, team);
    }
    TeamsRepeatExactly(events);
  }

  /** When the cards count every event once, exactly: no body was committed
      again after a crash lost its hash, and no two logged bodies decode to one event. */
  lemma EventsCountedOnceExactly(c: Crypto, lib: EatLib, steps: seq<Service.Step>, id: string)
    requires InjectiveHash(c)
    ensures var log := Service.LogOf(Service.Run(c, lib, steps), id);
            var again := exists body :: Service.LoggedAgain(c, lib, steps, id, body);
            CardsCountOnce(c, Loaded(c, log)) <==> !again && OneBodyPerEvent(c, log)
  {
    var log := Service.LogOf(Service.Run(c, lib, steps), id);
    LedgerDecodes(c, lib, steps, id);
    LoadedOnceExactly(c, log);
    CardsCountOnceIfDistinct(c, Loaded(c, log));
    LedgerDistinctExactly(c, lib, steps, id);
  }

  lemma LedgerDistinctExactly(c: Crypto, lib: EatLib, steps: seq<Service.Step>, id: string)
    requires InjectiveHash(c)
    ensures Distinct(Service.LogOf(Service.Run(c, lib, steps), id))
       <==> !exists body :: Service.LoggedAgain(c, lib, steps, id, body)
  {
    DistinctExactly(Service.LogOf(Service.Run(c, lib, steps), id));
    forall body: bytes
      ensures multiset(Service.LogOf(Service.Run(c, lib, steps), id))[body] <= 1
         <==> !Service.LoggedAgain(c, lib, steps, id, body)
    {
      Service.LogHoldsOnceExactly(c, lib, steps, id, body);
    }
  }

  ghost predicate CrashFree(steps: seq<Service.Step>) { forall i :: 0 <= i < |steps| ==> !steps[i].Crash? }

  /** Reached without a crash. */
  ghost predicate CalmlyReachable(c: Crypto, lib: EatLib, s: Service.State)
  {
    exists steps :: Service.Run(c, lib, steps) == s && CrashFree(steps)
  }

  lemma CalmStep(c: Crypto, lib: EatLib, s: Service.State, step: Service.Step)
    requires CalmlyReachable(c, lib, s) && !step.Crash?
    ensures CalmlyReachable(c, lib, Service.Apply(c, lib, s, step))
  {
    var steps :| Service.Run(c, lib, steps) == s && CrashFree(steps);
    var more := steps + [step];
    assert more[..|steps|] == steps;
    assert Service.Run(c, lib, more) == Service.Apply(c, lib, s, step);
  }

  lemma CalmIngest(c: Crypto, lib: EatLib, s: Service.State, id: string, body: bytes, fetched: Fetched)
    requires CalmlyReachable(c, lib, s)
    ensures CalmlyReachable(c, lib, Service.Ingested(c, lib, s, 0, id, body, fetched, true))
  {
    var s1 := Service.Apply(c, lib, s, Service.Arrive(0, id, body));
    var s2 := Service.Apply(c, lib, s1, Service.LookUp(0));
    CalmStep(c, lib, s, Service.Arrive(0, id, body));
    CalmStep(c, lib, s1, Service.LookUp(0));
    CalmStep(c, lib, s2, Service.Validate(0, fetched));
    CalmStep(c, lib, Service.Apply(c, lib, s2, Service.Validate(0, fetched)), Service.Commit(0, true, true));
  }

  /** The second condition is needed: two bodies that decode alike are both
      logged, without any crash, and the event is there twice. */
  lemma TwoBodiesCountTwice(c: Crypto, lib: EatLib, record: Service.EventRecord, b: bytes, b': bytes, fetched: Fetched)
    requires InjectiveHash(c) && Service.ValidEventId(record.eventId) && b != b'
    requires Service.Ingestible(c, lib, b, fetched) && Service.Ingestible(c, lib, b', fetched)
    requires EventFromCbor(c, b) == EventFromCbor(c, b')
    ensures exists s :: CalmlyReachable(c, lib, s)
              && Service.LogOf(s, record.eventId) == [b, b'] && !Distinct(Loaded(c, Service.LogOf(s, record.eventId)))
  {
    var id := record.eventId;
    assert Service.Run(c, lib, []) == Service.INITIAL;
    CalmStep(c, lib, Service.INITIAL, Service.CreateEvent(record, true));
    var s1 := Service.Apply(c, lib, Service.INITIAL, Service.CreateEvent(record, true));
    CalmIngest(c, lib, s1, id, b, fetched);
    Service.IngestCommits(c, lib, s1, 0, id, b, fetched, true);
    var s2 := Service.Ingested(c, lib, s1, 0, id, b, fetched, true);
    assert Service.LogOf(s2, id) == [b];
    SecondBodyLogged(c, lib, s2, id, b, b', fetched);
    var s3 := Service.Ingested(c, lib, s2, 0, id, b', fetched, true);
    LoadedOnceExactly(c, Service.LogOf(s3, id));
  }

  lemma SecondBodyLogged(c: Crypto, lib: EatLib, s: Service.State, id: string, b: bytes, b': bytes, fetched: Fetched)
    requires InjectiveHash(c) && CalmlyReachable(c, lib, s) && Service.LogOf(s, id) == [b] && b != b'
    requires Service.Ingestible(c, lib, b', fetched) && 0 !in s.inflight && id in s.store.events
    requires Service.ValidEventId(id)
    ensures var s' := Service.Ingested(c, lib, s, 0, id, b', fetched, true);
            CalmlyReachable(c, lib, s') && Service.LogOf(s', id) == [b, b']
  {
    var steps :| Service.Run(c, lib, steps) == s && CrashFree(steps);
    Service.RunKeepsInv(c, lib, steps);
    assert Service.IndexKept(c, s, id);
    assert c.sha256(b') !in Service.HashesOf(s.store, id);
    CalmIngest(c, lib, s, id, b', fetched);
    Service.IngestCommits(c, lib, s, 0, id, b', fetched, true);
  }
}
