/** The capture daemon, a lossy network and the event service together.

    The service part of the state runs under any of its own steps at any time,
    so a request may be lost, delayed, duplicated or sent by someone else; a
    success reply reaches the daemon only if the service produced it. */
module CaptureLedger {
  import opened Common
  import opened EatChain
  import opened CaptureClaim
  import Service = EventService
  import Gateway
  import Histories
  import Sorting

  /** A `capture_report` in progress: logged locally, with its failed attempts so far. */
  datatype Capture = Capture(body: bytes, failures: nat)

  /** A replay pass between its read of the pending file and its rewrite. */
  datatype Pass = Pass(lines: seq<bytes>, next: nat, remaining: seq<bytes>)

  datatype State = State(
    service: Service.State,
    eventLog: seq<bytes>,            // the daemon's append-only log
    pending: seq<bytes>,             // the pending file; no file is no lines
    captures: map<nat, Capture>,
    pass: Option<Pass>,
    returned: set<bytes>)            // history: captures answered 202

  datatype Step =
    | ServiceStep(step: Service.Step)
    | Begin(capture: nat, body: bytes, logOk: bool)
    | AttemptOk(capture: nat)
    | AttemptFailed(capture: nat)
    | Queue(capture: nat, appendOk: bool)
    | PassRead
    | PassOk
    | PassFailed
    | PassEnd(ioOk: bool)

  const INITIAL := State(Service.INITIAL, [], [], map[], None, {})

  function Return(s: State, k: nat): State
    requires k in s.captures
  {
    s.(captures := s.captures - {k}, returned := s.returned + {s.captures[k].body})
  }

  /** One step towards the sink `sink`; a step that is not enabled changes nothing. */
  function Apply(c: Crypto, lib: EatLib, sink: string, s: State, step: Step): State
  {
    match step
    case ServiceStep(x) => s.(service := Service.Apply(c, lib, s.service, x))
    case Begin(k, body, logOk) =>
      if k !in s.captures && logOk then
        s.(eventLog := s.eventLog + [body], captures := s.captures[k := Capture(body, 0)])
      else s
    case AttemptOk(k) =>
      if k in s.captures && s.captures[k].failures < 3 && (sink, s.captures[k].body) in s.service.accepted then
        Return(s, k)
      else s
    case AttemptFailed(k) =>
      if k in s.captures && s.captures[k].failures < 3 then
        s.(captures := s.captures[k := Capture(s.captures[k].body, s.captures[k].failures + 1)])
      else s
    case Queue(k, appendOk) =>
      if k in s.captures && s.captures[k].failures == 3 then
        if appendOk then Return(s.(pending := s.pending + [s.captures[k].body]), k)
        else s.(captures := s.captures - {k})
      else s
    case PassRead =>
      if s.pass.None? && s.pending != [] then s.(pass := Some(Pass(s.pending, 0, []))) else s
    case PassOk =>
      if s.pass.Some? && s.pass.value.next < |s.pass.value.lines|
         && (sink, s.pass.value.lines[s.pass.value.next]) in s.service.accepted then
        s.(pass := Some(s.pass.value.(next := s.pass.value.next + 1)))
      else s
    case PassFailed =>
      if s.pass.Some? && s.pass.value.next < |s.pass.value.lines| then
        var p := s.pass.value;
        s.(pass := Some(Pass(p.lines, p.next + 1, p.remaining + [p.lines[p.next]])))
      else s
    case PassEnd(ioOk) =>
      // an error ends the pass at any point and leaves the file as it is
      if s.pass.Some? && !ioOk then s.(pass := None)
      else if s.pass.Some? && s.pass.value.next == |s.pass.value.lines| then Rewritten(s)
      else s
  }

  /** The remove or rewrite at the end of a pass: the file becomes the undelivered lines the pass read. */
  function Rewritten(s: State): State
    requires s.pass.Some?
  {
    s.(pass := None, pending := s.pass.value.remaining)
  }

  function Run(c: Crypto, lib: EatLib, sink: string, steps: seq<Step>): State
  {
    if steps == [] then INITIAL
    else Apply(c, lib, sink, Run(c, lib, sink, steps[..|steps| - 1]), steps[|steps| - 1])
  }

  // ------------------------------------------------------------------
  // The daemon's own loops
  // ------------------------------------------------------------------

  /** The lines whose delivery failed, in order. */
  function Undelivered(lines: seq<bytes>, ok: seq<bool>): seq<bytes>
    requires |ok| == |lines|
  {
    if lines == [] then []
    else
      var n := |lines| - 1;
      if ok[n] then Undelivered(lines[..n], ok[..n]) else Undelivered(lines[..n], ok[..n]) + [lines[n]]
  }

  class CaptureDaemon {
    var eventLog: seq<bytes>
    var pending: seq<bytes>

    constructor ()
      ensures eventLog == [] && pending == []
    {
      eventLog, pending := [], [];
    }

    /** Three attempts; `outcomes[i]` is what attempt i would get.  Also the sleeps, in milliseconds. */
    method SendEventWithBackoff(outcomes: seq<bool>) returns (ok: bool, attempts: nat, sleeps: seq<nat>)
      requires |outcomes| == 3
      ensures ok <==> true in outcomes
      ensures ok ==> 1 <= attempts <= 3 && outcomes[attempts - 1] && forall i :: 0 <= i < attempts - 1 ==> !outcomes[i]
      ensures !ok ==> attempts == 3
      ensures sleeps == [200, 400, 800][..if ok then attempts - 1 else 3]
    {
      var delay: nat := 200;
      attempts, sleeps := 0, [];
      while attempts < 3
        invariant attempts <= 3
        invariant delay == [200, 400, 800, 1600][attempts]
        invariant sleeps == [200, 400, 800][..attempts]
        invariant forall i :: 0 <= i < attempts ==> !outcomes[i]
      {
        attempts := attempts + 1;
        if outcomes[attempts - 1] { return true, attempts, sleeps; }
        sleeps := sleeps + [delay];
        delay := Min(delay * 2, 2000);
      }
      return false, attempts, sleeps;
    }

    /** `capture_report`; `None` is an error reply, otherwise whether the event was queued. */
    method CaptureReport(body: bytes, logOk: bool, outcomes: seq<bool>, queueOk: bool) returns (queued: Option<bool>)
      requires |outcomes| == 3
      modifies this
      ensures eventLog == if logOk then old(eventLog) + [body] else old(eventLog)
      ensures queued == if !logOk then None
                        else if true in outcomes then Some(false)
                        else if queueOk then Some(true) else None
      ensures pending == if queued == Some(true) then old(pending) + [body] else old(pending)
    {
      if !logOk { return None; }
      eventLog := eventLog + [body];
      var delivered, _, _ := SendEventWithBackoff(outcomes);
      if !delivered {
        if !queueOk { return None; }
        pending := pending + [body];
      }
      return Some(!delivered);
    }

    /** One whole replay pass; `ok[i]` is the outcome of sending line i.  A
        failed rewrite is an error, a failed removal goes unnoticed. */
    method ReplayPendingEvents(ok: seq<bool>, ioOk: bool) returns (r: Option<nat>)
      requires |ok| == |pending|
      modifies this`pending
      ensures pending == if ioOk then Undelivered(old(pending), ok) else old(pending)
      ensures r.None? <==> !ioOk && Undelivered(old(pending), ok) != []
      ensures r.Some? ==> r.value + |Undelivered(old(pending), ok)| == |old(pending)|
    {
      var lines := pending;
      var delivered := 0;
      var remaining: seq<bytes> := [];
      for i := 0 to |lines|
        invariant remaining == Undelivered(lines[..i], ok[..i]) && delivered + |remaining| == i
      {
        assert lines[..i + 1][..i] == lines[..i] && ok[..i + 1][..i] == ok[..i];
        if ok[i] { delivered := delivered + 1; } else { remaining := remaining + [lines[i]]; }
      }
      assert lines[..|lines|] == lines && ok[..|lines|] == ok;
      if ioOk { pending := remaining; }
      return if ioOk || remaining == [] then Some(delivered) else None;
    }
  }

  // ------------------------------------------------------------------
  // The daemon's methods are runs of the steps
  // ------------------------------------------------------------------

  function Attempt(k: nat, ok: bool): Step { if ok then AttemptOk(k) else AttemptFailed(k) }

  /** `capture_report` as steps: log, three attempts, queue; those after the return are not enabled. */
  function Reported(c: Crypto, lib: EatLib, sink: string, s: State, k: nat, body: bytes, logOk: bool,
                    outcomes: seq<bool>, queueOk: bool): State
    requires |outcomes| == 3
  {
    var s1 := Apply(c, lib, sink, s, Begin(k, body, logOk));
    var s2 := Apply(c, lib, sink, s1, Attempt(k, outcomes[0]));
    var s3 := Apply(c, lib, sink, s2, Attempt(k, outcomes[1]));
    var s4 := Apply(c, lib, sink, s3, Attempt(k, outcomes[2]));
    Apply(c, lib, sink, s4, Queue(k, queueOk))
  }

  /** The state with a capture of `body` under way as `k` after some failures, with it answered, and with it queued. */
  function Trying(s: State, k: nat, body: bytes, failures: nat): State
  {
    s.(eventLog := s.eventLog + [body], captures := s.captures[k := Capture(body, failures)])
  }

  function Answered(s: State, body: bytes): State
  {
    s.(eventLog := s.eventLog + [body], returned := s.returned + {body})
  }

  function Queued(s: State, body: bytes): State
  {
    s.(eventLog := s.eventLog + [body], pending := s.pending + [body], returned := s.returned + {body})
  }

  lemma AttemptOnce(c: Crypto, lib: EatLib, sink: string, s: State, k: nat, body: bytes, failures: nat, ok: bool)
    requires k !in s.captures && failures < 3 && (ok ==> (sink, body) in s.service.accepted)
    ensures Apply(c, lib, sink, Trying(s, k, body, failures), Attempt(k, ok))
         == if ok then Answered(s, body) else Trying(s, k, body, failures + 1)
  {
    var t := Trying(s, k, body, failures);
    assert t.captures - {k} == s.captures;
    assert t.captures[k := Capture(body, failures + 1)] == s.captures[k := Capture(body, failures + 1)];
  }

  lemma QueueOnce(c: Crypto, lib: EatLib, sink: string, s: State, k: nat, body: bytes, queueOk: bool)
    requires k !in s.captures
    ensures Apply(c, lib, sink, Trying(s, k, body, 3), Queue(k, queueOk))
         == if queueOk then Queued(s, body) else s.(eventLog := s.eventLog + [body])
  {
  }

  /** Uninterrupted, those steps do to log and pending file what `CaptureReport` does. */
  lemma ReportIsARun(c: Crypto, lib: EatLib, sink: string, s: State, k: nat, body: bytes, logOk: bool,
                     outcomes: seq<bool>, queueOk: bool)
    requires |outcomes| == 3 && k !in s.captures && (true in outcomes ==> (sink, body) in s.service.accepted)
    ensures Reported(c, lib, sink, s, k, body, logOk, outcomes, queueOk)
         == if !logOk then s
            else if true in outcomes then Answered(s, body)
            else if queueOk then Queued(s, body)
            else s.(eventLog := s.eventLog + [body])
  {
    NotEnabled(c, lib, sink, s, k, outcomes, queueOk);
    if logOk {
      AttemptOnce(c, lib, sink, s, k, body, 0, outcomes[0]);
      AttemptOnce(c, lib, sink, s, k, body, 1, outcomes[1]);
      AttemptOnce(c, lib, sink, s, k, body, 2, outcomes[2]);
      NotEnabled(c, lib, sink, Answered(s, body), k, outcomes, queueOk);
      QueueOnce(c, lib, sink, s, k, body, queueOk);
      assert true in outcomes <==> outcomes[0] || outcomes[1] || outcomes[2];
    }
  }

  lemma NotEnabled(c: Crypto, lib: EatLib, sink: string, s: State, k: nat, outcomes: seq<bool>, queueOk: bool)
    requires k !in s.captures
    ensures forall i :: 0 <= i < |outcomes| ==> Apply(c, lib, sink, s, Attempt(k, outcomes[i])) == s
    ensures Apply(c, lib, sink, s, Queue(k, queueOk)) == s
  {
  }

  /** The deliveries of a replay pass, one step a line. */
  function Delivering(c: Crypto, lib: EatLib, sink: string, s: State, ok: seq<bool>): State
  {
    if ok == [] then s
    else Apply(c, lib, sink, Delivering(c, lib, sink, s, ok[..|ok| - 1]), if ok[|ok| - 1] then PassOk else PassFailed)
  }

  lemma {:induction false} DeliveringKeepsUndelivered(c: Crypto, lib: EatLib, sink: string, s: State, ok: seq<bool>)
    requires s.pass == Some(Pass(s.pending, 0, [])) && |ok| <= |s.pending|
    requires forall i :: 0 <= i < |ok| && ok[i] ==> (sink, s.pending[i]) in s.service.accepted
    ensures Delivering(c, lib, sink, s, ok)
         == s.(pass := Some(Pass(s.pending, |ok|, Undelivered(s.pending[..|ok|], ok))))
  {
    if ok != [] {
      var n := |ok| - 1;
      DeliveringKeepsUndelivered(c, lib, sink, s, ok[..n]);
      assert s.pending[..|ok|][..n] == s.pending[..n];
    }
  }

  /** And an uninterrupted pass does to the pending file what `ReplayPendingEvents` does. */
  lemma ReplayIsARun(c: Crypto, lib: EatLib, sink: string, s: State, ok: seq<bool>, ioOk: bool)
    requires s.pass.None? && |ok| == |s.pending|
    requires forall i :: 0 <= i < |ok| && ok[i] ==> (sink, s.pending[i]) in s.service.accepted
    ensures Apply(c, lib, sink, Delivering(c, lib, sink, Apply(c, lib, sink, s, PassRead), ok), PassEnd(ioOk))
         == s.(pending := if ioOk then Undelivered(s.pending, ok) else s.pending)
  {
    if s.pending != [] {
      DeliveringKeepsUndelivered(c, lib, sink, Apply(c, lib, sink, s, PassRead), ok);
      assert s.pending[..|ok|] == s.pending;
    }
  }

  // ------------------------------------------------------------------
  // Nothing is lost, nothing is doubled
  // ------------------------------------------------------------------

  ghost predicate Inv(sink: string, s: State)
  {
    && (forall b :: b in s.returned ==> b in s.eventLog)
    && (forall k :: k in s.captures ==> s.captures[k].body in s.eventLog)
    && (s.pass.Some? ==> PassInv(sink, s, s.pass.value))
  }

  /** Every line a pass has read is still in the file, and was acknowledged or kept. */
  ghost predicate PassInv(sink: string, s: State, p: Pass)
  {
    && p.lines <= s.pending && p.next <= |p.lines| && (forall b :: b in p.remaining ==> b in p.lines)
    && forall i :: 0 <= i < p.next ==> (sink, p.lines[i]) in s.service.accepted || p.lines[i] in p.remaining
  }

  lemma ServiceAcceptsMonotonically(c: Crypto, lib: EatLib, s: Service.State, step: Service.Step)
    ensures s.accepted <= Service.Apply(c, lib, s, step).accepted
  {
  }

  lemma StepKeepsInv(c: Crypto, lib: EatLib, sink: string, s: State, step: Step)
    requires Inv(sink, s)
    ensures Inv(sink, Apply(c, lib, sink, s, step))
  {
    match step
    case ServiceStep(x) => ServiceAcceptsMonotonically(c, lib, s.service, x);
    case _ =>
  }

  lemma StepKeepsService(c: Crypto, lib: EatLib, sink: string, s: State, step: Step)
    requires Service.Inv(c, lib, s.service)
    ensures Service.Inv(c, lib, Apply(c, lib, sink, s, step).service)
  {
    if step.ServiceStep? {
      Service.StepKeepsInv(c, lib, s.service, step.step);
    } else {
      assert Apply(c, lib, sink, s, step).service == s.service;
    }
  }

  lemma {:induction false} RunKeepsInv(c: Crypto, lib: EatLib, sink: string, steps: seq<Step>)
    ensures Inv(sink, Run(c, lib, sink, steps)) && Service.Inv(c, lib, Run(c, lib, sink, steps).service)
  {
    if steps != [] {
      var n := |steps| - 1;
      RunKeepsInv(c, lib, sink, steps[..n]);
      var s := Run(c, lib, sink, steps[..n]);
      StepKeepsInv(c, lib, sink, s, steps[n]);
      StepKeepsService(c, lib, sink, s, steps[n]);
    } else {
      Service.RunKeepsInv(c, lib, []);
    }
  }

  /** No append to the pending file falls between a pass's read and its rewrite. */
  ghost predicate NoOverlap(c: Crypto, lib: EatLib, sink: string, steps: seq<Step>)
  {
    forall i :: 0 <= i < |steps| && steps[i].Queue? ==> Run(c, lib, sink, steps[..i]).pass.None?
  }

  lemma NoOverlapPrefix(c: Crypto, lib: EatLib, sink: string, steps: seq<Step>, n: nat)
    requires NoOverlap(c, lib, sink, steps) && n <= |steps|
    ensures NoOverlap(c, lib, sink, steps[..n])
  {
    forall i | 0 <= i < n && steps[..n][i].Queue? ensures Run(c, lib, sink, steps[..n][..i]).pass.None? {
      assert steps[..n][..i] == steps[..i];
    }
  }

  /** Then a pass has always read the whole file. */
  lemma {:induction false} NoOverlapReadsAll(c: Crypto, lib: EatLib, sink: string, steps: seq<Step>)
    requires NoOverlap(c, lib, sink, steps)
    ensures var s := Run(c, lib, sink, steps); s.pass.Some? ==> s.pass.value.lines == s.pending
  {
    if steps != [] {
      var n := |steps| - 1;
      NoOverlapPrefix(c, lib, sink, steps, n);
      NoOverlapReadsAll(c, lib, sink, steps[..n]);
      StepReadsAll(c, lib, sink, Run(c, lib, sink, steps[..n]), steps[n]);
    }
  }

  lemma StepReadsAll(c: Crypto, lib: EatLib, sink: string, s: State, step: Step)
    requires (s.pass.Some? ==> s.pass.value.lines == s.pending) && (step.Queue? ==> s.pass.None?)
    ensures var s' := Apply(c, lib, sink, s, step); s'.pass.Some? ==> s'.pass.value.lines == s'.pending
  {
  }

  /** The service's own steps in a run. */
  function ServiceSteps(steps: seq<Step>): seq<Service.Step>
  {
    if steps == [] then []
    else
      var n := |steps| - 1;
      if steps[n].ServiceStep? then ServiceSteps(steps[..n]) + [steps[n].step] else ServiceSteps(steps[..n])
  }

  /** Nobody but the service moves the service. */
  lemma {:induction false} ServiceRunsAlone(c: Crypto, lib: EatLib, sink: string, steps: seq<Step>)
    ensures Run(c, lib, sink, steps).service == Service.Run(c, lib, ServiceSteps(steps))
  {
    if steps != [] {
      var n := |steps| - 1;
      ServiceRunsAlone(c, lib, sink, steps[..n]);
      if steps[n].ServiceStep? {
        var own := ServiceSteps(steps);
        assert own[..|own| - 1] == ServiceSteps(steps[..n]);
      }
    }
  }

  // ------------------------------------------------------------------
  // Exactly when a body is lost
  // ------------------------------------------------------------------

  /** Where a body counts as kept: in the service log or in the pending file. */
  ghost predicate Held(sink: string, s: State, body: bytes)
  {
    body in Service.LogOf(s.service, sink) || body in s.pending
  }

  /** The rewrite at the end of a pass drops the body: its line was appended
      after the read, the pass keeps no such line, and the service has not logged it. */
  ghost predicate Loses(sink: string, s: State, step: Step, body: bytes)
  {
    && step.PassEnd? && step.ioOk && s.pass.Some? && s.pass.value.next == |s.pass.value.lines| <= |s.pending|
    && body in s.pending[|s.pass.value.lines|..] && body !in s.pass.value.remaining
    && body !in Service.LogOf(s.service, sink)
  }

  /** A capture queues the body, or a commit offers it to the log. */
  ghost predicate Brings(sink: string, s: State, step: Step, body: bytes)
  {
    match step
    case Queue(k, appendOk) => appendOk && k in s.captures && s.captures[k] == Capture(body, 3)
    case ServiceStep(x) => Service.Offered(s.service, x, sink) == Some(body)
    case _ => false
  }

  lemma RewriteOnHeld(c: Crypto, lib: EatLib, sink: string, s: State, body: bytes)
    requires InjectiveHash(c) && Service.Inv(c, lib, s.service) && Inv(sink, s)
    requires s.pass.Some? && s.pass.value.next == |s.pass.value.lines|
    ensures Held(sink, Rewritten(s), body) <==> Held(sink, s, body) && !Loses(sink, s, PassEnd(true), body)
  {
    var p := s.pass.value;
    if (sink, body) in s.service.accepted { Service.AcceptedIsLogged(c, lib, s.service, sink, body); }
    assert s.pending == p.lines + s.pending[|p.lines|..];
    if body in p.lines {
      var i :| 0 <= i < |p.lines| && p.lines[i] == body;
    }
  }

  lemma ServiceOnHeld(c: Crypto, lib: EatLib, sink: string, s: Service.State, step: Service.Step, body: bytes)
    requires InjectiveHash(c) && Service.Inv(c, lib, s)
    ensures body in Service.LogOf(Service.Apply(c, lib, s, step), sink)
       <==> body in Service.LogOf(s, sink) || Service.Offered(s, step, sink) == Some(body)
  {
    Service.StepOnLog(c, lib, s, step, sink);
    assert Service.IndexKept(c, s, sink);
    if c.sha256(body) in Service.HashesOf(s.store, sink) {
      assert Service.HashLogged(c, c.sha256(body), Service.LogOf(s, sink));
    }
  }

  /** What every step does to a body, exactly: it is kept afterwards if it was
      and no rewrite drops it, or if the step brings it. */
  lemma RewriteLosesExactly(c: Crypto, lib: EatLib, sink: string, s: State, step: Step, body: bytes)
    requires InjectiveHash(c) && Service.Inv(c, lib, s.service) && Inv(sink, s)
    ensures Held(sink, Apply(c, lib, sink, s, step), body)
       <==> (Held(sink, s, body) && !Loses(sink, s, step, body)) || Brings(sink, s, step, body)
  {
    match step
    case ServiceStep(x) => ServiceOnHeld(c, lib, sink, s.service, x, body);
    case PassEnd(ioOk) =>
      if s.pass.Some? && ioOk && s.pass.value.next == |s.pass.value.lines| { RewriteOnHeld(c, lib, sink, s, body); }
    case _ =>
  }

  /** The state before step n of a run. */
  function StateAt(c: Crypto, lib: EatLib, sink: string, steps: seq<Step>, n: nat): State
    requires n <= |steps|
  {
    Run(c, lib, sink, steps[..n])
  }

  /** Step k of the run is a rewrite that drops the body. */
  ghost function LosesIn(c: Crypto, lib: EatLib, sink: string, steps: seq<Step>, body: bytes): nat -> bool
  {
    (k: nat) => k < |steps| && Loses(sink, StateAt(c, lib, sink, steps, k), steps[k], body)
  }

  /** Step k of the run queues or commits the body. */
  ghost function BringsIn(c: Crypto, lib: EatLib, sink: string, steps: seq<Step>, body: bytes): nat -> bool
  {
    (k: nat) => k < |steps| && Brings(sink, StateAt(c, lib, sink, steps, k), steps[k], body)
  }

  ghost function HeldIn(c: Crypto, lib: EatLib, sink: string, steps: seq<Step>, body: bytes): nat -> bool
  {
    (k: nat) => k <= |steps| && Held(sink, StateAt(c, lib, sink, steps, k), body)
  }

  ghost function AnsweredIn(c: Crypto, lib: EatLib, sink: string, steps: seq<Step>, body: bytes): nat -> bool
  {
    (k: nat) => k <= |steps| && body in StateAt(c, lib, sink, steps, k).returned
  }

  /** A rewrite of the run drops the body and no later step brings it back. */
  ghost predicate Lost(c: Crypto, lib: EatLib, sink: string, steps: seq<Step>, body: bytes)
  {
    Histories.LostForGood(LosesIn(c, lib, sink, steps, body), BringsIn(c, lib, sink, steps, body), |steps|)
  }

  /** A body is answered only when it is in one of the two places. */
  lemma AnsweredIsHeld(c: Crypto, lib: EatLib, sink: string, s: State, step: Step, body: bytes)
    requires InjectiveHash(c) && Service.Inv(c, lib, s.service)
    ensures var s' := Apply(c, lib, sink, s, step); body in s'.returned && body !in s.returned ==> Held(sink, s', body)
  {
    if (sink, body) in s.service.accepted { Service.AcceptedIsLogged(c, lib, s.service, sink, body); }
  }

  lemma RunOnHeld(c: Crypto, lib: EatLib, sink: string, steps: seq<Step>, body: bytes, k: nat)
    requires InjectiveHash(c) && k < |steps|
    ensures Histories.HoldStep(HeldIn(c, lib, sink, steps, body), LosesIn(c, lib, sink, steps, body),
                               BringsIn(c, lib, sink, steps, body), k)
    ensures Histories.DueStep(HeldIn(c, lib, sink, steps, body), AnsweredIn(c, lib, sink, steps, body), k)
  {
    var s := StateAt(c, lib, sink, steps, k);
    assert steps[..k + 1][..k] == steps[..k];
    RunKeepsInv(c, lib, sink, steps[..k]);
    RewriteLosesExactly(c, lib, sink, s, steps[k], body);
    AnsweredIsHeld(c, lib, sink, s, steps[k], body);
  }

  lemma RunIsHolding(c: Crypto, lib: EatLib, sink: string, steps: seq<Step>, body: bytes)
    requires InjectiveHash(c)
    ensures Histories.Holding(HeldIn(c, lib, sink, steps, body), LosesIn(c, lib, sink, steps, body),
                              BringsIn(c, lib, sink, steps, body), |steps|)
    ensures Histories.HeldWhenDue(HeldIn(c, lib, sink, steps, body), AnsweredIn(c, lib, sink, steps, body), |steps|)
  {
    assert steps[..0] == [];
    forall k: nat | k < |steps|
      ensures Histories.HoldStep(HeldIn(c, lib, sink, steps, body), LosesIn(c, lib, sink, steps, body),
                                 BringsIn(c, lib, sink, steps, body), k)
      ensures Histories.DueStep(HeldIn(c, lib, sink, steps, body), AnsweredIn(c, lib, sink, steps, body), k)
    {
      RunOnHeld(c, lib, sink, steps, body, k);
    }
  }

  /** An answered capture is in neither place after a run if and only if a
      rewrite dropped it and no later queueing or commit brought it back. */
  lemma AnsweredIsLostExactly(c: Crypto, lib: EatLib, sink: string, steps: seq<Step>, body: bytes)
    requires InjectiveHash(c) && body in Run(c, lib, sink, steps).returned
    ensures Held(sink, Run(c, lib, sink, steps), body) <==> !Lost(c, lib, sink, steps, body)
  {
    RunIsHolding(c, lib, sink, steps, body);
    assert steps[..|steps|] == steps;
    Histories.HeldUnlessLost(HeldIn(c, lib, sink, steps, body), LosesIn(c, lib, sink, steps, body),
                             BringsIn(c, lib, sink, steps, body), AnsweredIn(c, lib, sink, steps, body), |steps|);
  }

  /** Without an append between a pass's read and its rewrite nothing is lost. */
  lemma NoOverlapLosesNothing(c: Crypto, lib: EatLib, sink: string, steps: seq<Step>, body: bytes)
    requires NoOverlap(c, lib, sink, steps)
    ensures !Lost(c, lib, sink, steps, body)
  {
    forall i: nat | i < |steps| ensures !LosesIn(c, lib, sink, steps, body)(i) {
      NoOverlapPrefix(c, lib, sink, steps, i);
      NoOverlapReadsAll(c, lib, sink, steps[..i]);
    }
  }

  /** Exactly-once effect from at-least-once delivery, over every run with
      loss, retries, replays and crashes of the service.  An answered capture is
      in the daemon's log; it is in the service log or the pending file unless a
      rewrite dropped it for good, so always if no append overlaps a pass; and
      the service log holds it at most once unless a crash lost its hash and it
      was committed again, so always if every crash finds the list saved. */
  lemma ExactlyOnceEffect(c: Crypto, lib: EatLib, sink: string, steps: seq<Step>, body: bytes)
    requires InjectiveHash(c)
    ensures var s, own := Run(c, lib, sink, steps), ServiceSteps(steps);
            var once := multiset(Service.LogOf(s.service, sink))[body] <= 1;
            && (once <==> !Service.LoggedAgain(c, lib, own, sink, body))
            && (Service.SafeCrashes(c, lib, own, sink) ==> once)
            && (body in s.returned ==> body in s.eventLog)
            && (body in s.returned ==> (Held(sink, s, body) <==> !Lost(c, lib, sink, steps, body)))
            && (body in s.returned && NoOverlap(c, lib, sink, steps) ==> Held(sink, s, body))
  {
    var s, own := Run(c, lib, sink, steps), ServiceSteps(steps);
    RunKeepsInv(c, lib, sink, steps);
    ServiceRunsAlone(c, lib, sink, steps);
    Service.LogHoldsOnceExactly(c, lib, own, sink, body);
    Service.LedgerIndexAgreement(c, lib, own, sink);
    if Service.SafeCrashes(c, lib, own, sink) { Sorting.CountDistinct(Service.LogOf(s.service, sink), body); }
    if body in s.returned { AnsweredIsLostExactly(c, lib, sink, steps, body); }
    if NoOverlap(c, lib, sink, steps) { NoOverlapLosesNothing(c, lib, sink, steps, body); }
  }

  ghost predicate Reachable(c: Crypto, lib: EatLib, sink: string, s: State)
  {
    exists steps :: Run(c, lib, sink, steps) == s
  }

  lemma StepReaches(c: Crypto, lib: EatLib, sink: string, s: State, step: Step)
    requires Reachable(c, lib, sink, s)
    ensures Reachable(c, lib, sink, Apply(c, lib, sink, s, step))
  {
    var steps :| Run(c, lib, sink, steps) == s;
    var more := steps + [step];
    assert more[..|steps|] == steps;
    assert Run(c, lib, sink, more) == Apply(c, lib, sink, s, step);
  }

  lemma QueuedReaches(c: Crypto, lib: EatLib, sink: string, s: State, k: nat, body: bytes)
    requires Reachable(c, lib, sink, s) && k !in s.captures
    ensures Reachable(c, lib, sink, Queued(s, body))
  {
    StepReaches(c, lib, sink, s, Begin(k, body, true));
    var s1 := Apply(c, lib, sink, s, Begin(k, body, true));
    StepReaches(c, lib, sink, s1, AttemptFailed(k));
    var s2 := Apply(c, lib, sink, s1, AttemptFailed(k));
    StepReaches(c, lib, sink, s2, AttemptFailed(k));
    var s3 := Apply(c, lib, sink, s2, AttemptFailed(k));
    StepReaches(c, lib, sink, s3, AttemptFailed(k));
    var s4 := Apply(c, lib, sink, s3, AttemptFailed(k));
    StepReaches(c, lib, sink, s4, Queue(k, true));
    ReportIsARun(c, lib, sink, s, k, body, true, [false, false, false], true);
  }

  lemma ApplyPass(c: Crypto, lib: EatLib, sink: string, s: State, a: bytes, b: bytes)
    requires s.pass == Some(Pass([a], 0, [])) && s.pending == [a] + [b]
    ensures Apply(c, lib, sink, Apply(c, lib, sink, s, PassFailed), PassEnd(true))
         == s.(pass := None, pending := [a])
  {
  }

  /** And the side condition is needed: some run answers a capture and then
      loses it, because it was queued while a pass was under way. */
  lemma OverlapLosesACapture(c: Crypto, lib: EatLib, sink: string, a: bytes, b: bytes)
    requires a != b
    ensures exists s :: Reachable(c, lib, sink, s)
              && b in s.returned && b !in s.pending && b !in Service.LogOf(s.service, sink)
  {
    assert Run(c, lib, sink, []) == INITIAL;
    QueuedReaches(c, lib, sink, INITIAL, 0, a);
    var s1 := Queued(INITIAL, a);
    assert s1.pending == [a];
    StepReaches(c, lib, sink, s1, PassRead);
    var s2 := Apply(c, lib, sink, s1, PassRead);
    QueuedReaches(c, lib, sink, s2, 1, b);
    var s3 := Queued(s2, b);
    StepReaches(c, lib, sink, s3, PassFailed);
    StepReaches(c, lib, sink, Apply(c, lib, sink, s3, PassFailed), PassEnd(true));
    ApplyPass(c, lib, sink, s3, a, b);
    var s4 := s3.(pass := None, pending := [a]);
    assert b in s4.returned && b !in s4.pending && b !in Service.LogOf(s4.service, sink);
  }

  // ------------------------------------------------------------------
  // Gateway to ledger
  // ------------------------------------------------------------------

  lemma IngestKeepsInv(c: Crypto, lib: EatLib, s: Service.State, r: nat, contest: string, body: bytes, fetched: Fetched)
    requires Service.Inv(c, lib, s)
    ensures Service.Inv(c, lib, Service.Ingested(c, lib, s, r, contest, body, fetched, true))
  {
    var s1 := Service.Apply(c, lib, s, Service.Arrive(r, contest, body));
    var s2 := Service.Apply(c, lib, s1, Service.LookUp(r));
    var s3 := Service.Apply(c, lib, s2, Service.Validate(r, fetched));
    Service.StepKeepsInv(c, lib, s, Service.Arrive(r, contest, body));
    Service.StepKeepsInv(c, lib, s1, Service.LookUp(r));
    Service.StepKeepsInv(c, lib, s2, Service.Validate(r, fetched));
    Service.StepKeepsInv(c, lib, s3, Service.Commit(r, true, true));
  }

  /** Three parties end to end: whatever a started gateway emits in whatever
      run, an event service that knows the contest and fetches that gateway's
      own documents answers 202 and has the event in its log. */
  lemma GatewayEventIsLedgered(c: Crypto, lib: EatLib, cfg: Gateway.Config, key: bytes, id: Gateway.Identity,
                               requests: seq<(Gateway.Request, bool)>, e: ContestEvent,
                               s: Service.State, r: nat, contest: string)
    requires Sound(c) && InjectiveHash(c) && Gateway.StartUp(c, lib, cfg, key) == Some(id)
    requires e in Gateway.Run(c, id, requests).log && c.encodeEvent(e) != []
    requires Service.Inv(c, lib, s) && r !in s.inflight && contest in s.store.events && Service.ValidEventId(contest)
    ensures var fetched := Fetched(Some(c.encodeManifest(id.manifest)), cfg.cvmReceiptBody);
            var s' := Service.Ingested(c, lib, s, r, contest, c.encodeEvent(e), fetched, true);
            (contest, c.encodeEvent(e)) in s'.accepted && c.encodeEvent(e) in Service.LogOf(s', contest)
  {
    Gateway.EmittedEventsAcceptable(c, lib, cfg, key, id, requests);
    assert Gateway.Acceptable(c, lib, id, e);
    var body := c.encodeEvent(e);
    var fetched := Fetched(Some(c.encodeManifest(id.manifest)), cfg.cvmReceiptBody);
    Service.IngestCommits(c, lib, s, r, contest, body, fetched, true);
    IngestKeepsInv(c, lib, s, r, contest, body, fetched);
    Service.AcceptedIsLogged(c, lib, Service.Ingested(c, lib, s, r, contest, body, fetched, true), contest, body);
  }
}
