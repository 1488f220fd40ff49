/** The per-key rate limiter with persisted exponential backoff.

    The token bucket belongs to the `governor` crate; here it is an oracle that
    either admits the call or names a wait.  The clock, the oracle and the
    outcome of a save are inputs of every call. */
module RateLimiter {
  import opened Common

  const IDLE_TTL_MS: nat := 86_400_000
  const SAVE_INTERVAL_MS: nat := 5_000
  const MAX_VIOLATIONS: nat := 20

  datatype Policy = Policy(capacity: nat, refillPerMinute: nat, baseBackoffMs: nat, maxBackoffMs: nat)

  function PerMinute(refill: nat, burst: nat): Policy
  {
    Policy(Max(burst, 1), Max(refill, 1), 1_000, 60_000)
  }

  function WithBackoff(p: Policy, base: nat, max: nat): Policy
  {
    p.(baseBackoffMs := Max(base, 1), maxBackoffMs := Max(max, Max(base, 1)))
  }

  datatype Governor = Admit | Wait(ms: nat)

  datatype Decision = Decision(allowed: bool, retryAfterMs: nat, remaining: nat, limit: nat)

  datatype Entry = Entry(policy: Policy, blockedUntilMs: nat, violations: nat, lastSeenMs: nat)

  datatype Persisted = Persisted(blockedUntilMs: nat, violations: nat, lastSeenMs: nat)

  datatype State = State(
    maxSessions: nat,
    sessions: map<string, Entry>,
    dirty: bool,
    lastSavedMs: nat,
    disk: map<string, Persisted>)

  // ------------------------------------------------------------------
  // Arithmetic
  // ------------------------------------------------------------------

  function Pow2(n: nat): nat { if n == 0 then 1 else 2 * Pow2(n - 1) }

  function SaturatingMul(a: nat, b: nat): nat { Min(a * b, U64_MAX) }

  /** `exponential_backoff_ms`, with the saturating multiplication of the code. */
  function ExponentialBackoffMs(p: Policy, violations: nat): nat
  {
    var shift := Min(SaturatingSub(violations, 1), 16);
    Min(SaturatingMul(p.baseBackoffMs, Pow2(shift)), p.maxBackoffMs)
  }

  function RetryAfterSecs(ms: nat): nat { Max((ms + 999) / 1_000, 1) }

  lemma {:induction false} Pow2Monotone(a: nat, b: nat)
    requires a <= b
    ensures 1 <= Pow2(a) <= Pow2(b)
    decreases b
  {
    if a < b { Pow2Monotone(a, b - 1); } else if a > 0 { Pow2Monotone(a - 1, b - 1); }
  }

  lemma MulMonotone(k: nat, a: nat, b: nat)
    requires 1 <= a <= b && 1 <= k
    ensures 1 <= k * a <= k * b
  {
  }

  /** For any policy `with_backoff` can build, the saturating shift is the
      mathematical min(base * 2^min(v-1,16), max), stays in [1, max] and grows
      with v; base is at least 1, and max at least base. */
  lemma BackoffArithmetic(p: Policy, base: nat, max: nat, v: nat, w: nat)
    requires base <= U64_MAX && max <= U64_MAX && v <= w
    ensures var q, lo := WithBackoff(p, base, max), Max(base, 1);
            var hi := Max(max, lo);
            && ExponentialBackoffMs(q, v) == Min(lo * Pow2(Min(Max(v - 1, 0), 16)), hi)
            && 1 <= ExponentialBackoffMs(q, v) <= ExponentialBackoffMs(q, w) <= hi
            && q.capacity == p.capacity && q.refillPerMinute == p.refillPerMinute
  {
    var q := WithBackoff(p, base, max);
    var sv, sw := Min(SaturatingSub(v, 1), 16), Min(SaturatingSub(w, 1), 16);
    Pow2Monotone(sv, sw);
    MulMonotone(q.baseBackoffMs, Pow2(sv), Pow2(sw));
  }

  /** With the default policy a key waits 1, 2, 4, 8, 16 and 32 seconds, then a minute. */
  lemma DefaultWaits(refill: nat, burst: nat)
    ensures var p := PerMinute(refill, burst);
            && p.capacity == Max(burst, 1) && p.refillPerMinute == Max(refill, 1)
            && [ExponentialBackoffMs(p, 1), ExponentialBackoffMs(p, 2), ExponentialBackoffMs(p, 3),
                ExponentialBackoffMs(p, 4), ExponentialBackoffMs(p, 5), ExponentialBackoffMs(p, 6),
                ExponentialBackoffMs(p, 7), ExponentialBackoffMs(p, 20)]
            == [1_000, 2_000, 4_000, 8_000, 16_000, 32_000, 60_000, 60_000]
  {
    assert Pow2(0) == 1 && Pow2(1) == 2 && Pow2(2) == 4 && Pow2(3) == 8 && Pow2(4) == 16 && Pow2(5) == 32;
    assert Pow2(6) == 64;
    Pow2Monotone(6, 16);
    MulMonotone(1_000, Pow2(6), Pow2(16));
  }

  /** `retry_after_secs` is the ceiling of the milliseconds in seconds, and never 0. */
  lemma RetryAfterIsCeiling(ms: nat)
    ensures var secs := RetryAfterSecs(ms);
            1 <= secs && ms <= secs * 1_000 && (secs > 1 ==> (secs - 1) * 1_000 < ms)
  {
  }

  // ------------------------------------------------------------------
  // One call
  // ------------------------------------------------------------------

  function Pruned(sessions: map<string, Entry>, now: nat): map<string, Entry>
  {
    map k | k in sessions && SaturatingSub(now, sessions[k].lastSeenMs) <= IDLE_TTL_MS :: sessions[k]
  }

  function Snapshot(sessions: map<string, Entry>): map<string, Persisted>
  {
    map k | k in sessions :: Persisted(sessions[k].blockedUntilMs, sessions[k].violations, sessions[k].lastSeenMs)
  }

  /** `save_locked`: on failure neither the file nor the flags change. */
  function SaveLocked(s: State, now: nat, saveOk: bool): State
  {
    if saveOk then s.(disk := Snapshot(s.sessions), dirty := false, lastSavedMs := now) else s
  }

  predicate SaveDue(s: State, now: nat) { s.dirty && SaturatingSub(now, s.lastSavedMs) >= SAVE_INTERVAL_MS }

  /** The sessions the call sees, after the pruning it may do. */
  function Visible(s: State, now: nat): map<string, Entry>
  {
    if |s.sessions| > s.maxSessions then Pruned(s.sessions, now) else s.sessions
  }

  /** The entry the call works on: fresh, or kept across a change of policy. */
  function Touched(s: State, key: string, policy: Policy, now: nat): Entry
  {
    var visible := Visible(s, now);
    if key in visible then Entry(policy, visible[key].blockedUntilMs, visible[key].violations, now)
    else Entry(policy, 0, 0, now)
  }

  function Decide(e: Entry, now: nat, governor: Governor): (Entry, Decision)
  {
    var limit := e.policy.capacity;
    if now < e.blockedUntilMs then (e, Decision(false, SaturatingSub(e.blockedUntilMs, now), 0, limit))
    else match governor
      case Admit => (e.(violations := SaturatingSub(e.violations, 1)),
          Decision(true, 0, SaturatingSub(limit, 1), limit))
      case Wait(ms) =>
        var violations := Min(e.violations + 1, MAX_VIOLATIONS);
        var retry := Max(Min(ms, U64_MAX), ExponentialBackoffMs(e.policy, violations));
        (e.(violations := violations, blockedUntilMs := SaturatingAdd(now, retry)), Decision(false, retry, 0, limit))
  }

  /** `check` up to its save. */
  function Decided(s: State, key: string, policy: Policy, now: nat, governor: Governor): (State, Decision)
  {
    var e := Touched(s, key, policy, now);
    var (e', d) := Decide(e, now, governor);
    var changed := now >= e.blockedUntilMs && (governor.Wait? || e.violations > 0);
    (s.(sessions := Visible(s, now)[key := e'], dirty := s.dirty || |s.sessions| > s.maxSessions || changed), d)
  }

  /** Whether `check` saves: at once after a denial, otherwise when a save is due. */
  predicate CheckSaves(s: State, key: string, policy: Policy, now: nat, governor: Governor)
  {
    var (s1, d) := Decided(s, key, policy, now, governor);
    !d.allowed || SaveDue(s1, now)
  }

  /** `check`; `None` is the error of a failed save. */
  function Checked(s: State, key: string, policy: Policy, now: nat, governor: Governor, saveOk: bool)
    : (State, Option<Decision>)
  {
    var (s1, d) := Decided(s, key, policy, now, governor);
    if CheckSaves(s, key, policy, now, governor) then (SaveLocked(s1, now, saveOk), if saveOk then Some(d) else None)
    else (s1, Some(d))
  }

  /** `load`: entries come back under the default policy with their backoff intact. */
  function Loaded(maxSessions: nat, disk: map<string, Persisted>, now: nat): State
  {
    State(Max(maxSessions, 1),
          map k | k in disk :: Entry(PerMinute(1, 1), disk[k].blockedUntilMs, disk[k].violations, disk[k].lastSeenMs),
          false, now, disk)
  }

  /** The limiter object, updated in place under its mutex. */
  class ServiceRateLimiter {
    const maxSessions: nat
    var sessions: map<string, Entry>
    var dirty: bool
    var lastSavedMs: nat
    var disk: map<string, Persisted>

    ghost function Abstract(): State
      reads this
    {
      State(maxSessions, sessions, dirty, lastSavedMs, disk)
    }

    constructor Load(maxSessions: nat, disk: map<string, Persisted>, now: nat)
      ensures Abstract() == Loaded(maxSessions, disk, now)
    {
      this.maxSessions := Max(maxSessions, 1);
      sessions := map k | k in disk ::
        Entry(PerMinute(1, 1), disk[k].blockedUntilMs, disk[k].violations, disk[k].lastSeenMs);
      dirty, lastSavedMs := false, now;
      this.disk := disk;
    }

    method Save(now: nat, saveOk: bool)
      modifies this`disk, this`dirty, this`lastSavedMs
      ensures Abstract() == SaveLocked(old(Abstract()), now, saveOk)
    {
      if saveOk {
        disk := map k | k in sessions ::
          Persisted(sessions[k].blockedUntilMs, sessions[k].violations, sessions[k].lastSeenMs);
        dirty, lastSavedMs := false, now;
      }
    }

    /** Pruning, `or_insert_with`, policy replacement and the last-seen stamp. */
    method Enter(key: string, policy: Policy, now: nat) returns (entry: Entry)
      modifies this`sessions, this`dirty
      ensures entry == Touched(old(Abstract()), key, policy, now)
      ensures sessions == Visible(old(Abstract()), now)[key := entry]
      ensures dirty == (old(dirty) || |old(sessions)| > maxSessions)
    {
      if |sessions| > maxSessions {
        sessions := map k | k in sessions && SaturatingSub(now, sessions[k].lastSeenMs) <= IDLE_TTL_MS :: sessions[k];
        dirty := true;
      }
      ghost var visible := sessions;
      assert visible == Visible(old(Abstract()), now);
      if key !in sessions {
        sessions := sessions[key := Entry(policy, 0, 0, now)];
      }
      if sessions[key].policy != policy {
        sessions := sessions[key := Entry(policy, sessions[key].blockedUntilMs, sessions[key].violations, now)];
      }
      entry := sessions[key].(lastSeenMs := now);
      sessions := sessions[key := entry];
      assert sessions == visible[key := entry];
    }

    /** The block test and the governor, with their effect on the entry. */
    method Settle(key: string, entry: Entry, now: nat, governor: Governor) returns (decision: Decision)
      requires key in sessions && sessions[key] == entry
      modifies this`sessions, this`dirty
      ensures decision == Decide(entry, now, governor).1
      ensures sessions == old(sessions)[key := Decide(entry, now, governor).0]
      ensures dirty == (old(dirty) || (now >= entry.blockedUntilMs && (governor.Wait? || entry.violations > 0)))
    {
      var limit := entry.policy.capacity;
      if now < entry.blockedUntilMs {
        assert sessions == sessions[key := entry];
        return Decision(false, SaturatingSub(entry.blockedUntilMs, now), 0, limit);
      }
      match governor
      case Admit =>
        if entry.violations > 0 {
          sessions := sessions[key := entry.(violations := entry.violations - 1)];
          dirty := true;
        } else {
          assert sessions == sessions[key := entry];
        }
        return Decision(true, 0, SaturatingSub(limit, 1), limit);
      case Wait(ms) =>
        var violations := Min(entry.violations + 1, MAX_VIOLATIONS);
        var retry := Max(Min(ms, U64_MAX), ExponentialBackoffMs(entry.policy, violations));
        sessions := sessions[key := entry.(violations := violations, blockedUntilMs := SaturatingAdd(now, retry))];
        dirty := true;
        return Decision(false, retry, 0, limit);
    }

    method Check(key: string, policy: Policy, now: nat, governor: Governor, saveOk: bool) returns (r: Option<Decision>)
      modifies this
      ensures (Abstract(), r) == Checked(old(Abstract()), key, policy, now, governor, saveOk)
    {
      var entry := Enter(key, policy, now);
      var decision := Settle(key, entry, now, governor);
      assert sessions == Visible(old(Abstract()), now)[key := Decide(entry, now, governor).0];
      if !decision.allowed || (dirty && SaturatingSub(now, lastSavedMs) >= SAVE_INTERVAL_MS) {
        Save(now, saveOk);
        return if saveOk then Some(decision) else None;
      }
      return Some(decision);
    }
  }

  // ------------------------------------------------------------------
  // One call, in plain terms
  // ------------------------------------------------------------------

  /** The session is pruned by a call at `now`: the table is over its limit and the key idle for over 24 hours. */
  ghost predicate Stale(s: State, k: string, now: nat)
    requires k in s.sessions
  {
    |s.sessions| > s.maxSessions && now > s.sessions[k].lastSeenMs + 86_400_000
  }

  /** The block and the violations a call at `now` finds; a new session has none. */
  ghost function Prior(s: State, key: string, now: nat): (nat, nat)
  {
    if key in s.sessions && !Stale(s, key, now) then (s.sessions[key].blockedUntilMs, s.sessions[key].violations)
    else (0, 0)
  }

  /** The three outcomes of a call, exactly.  Before the end of its block the
      key is denied what is left and nothing else changes.  Otherwise an admitted
      call works off one violation, and a denial adds one, up to 20, and waits
      the backoff for them or what the governor asks, whichever is longer. */
  lemma CheckExactly(s: State, key: string, policy: Policy, now: nat, governor: Governor, saveOk: bool)
    requires policy.maxBackoffMs <= U64_MAX
    ensures var (s', d) := Checked(s, key, policy, now, governor, saveOk);
            var (until, v) := Prior(s, key, now);
            && key in s'.sessions
            && var e := s'.sessions[key];
            && e.policy == policy && e.lastSeenMs == now
            && (now < until ==>
                  && e.blockedUntilMs == until && e.violations == v
                  && (d.Some? ==> d.value == Decision(false, until - now, 0, policy.capacity)))
            && (now >= until && governor.Admit? ==>
                  && e.blockedUntilMs == until && e.violations == Max(v - 1, 0)
                  && (d.Some? ==> d.value == Decision(true, 0, Max(policy.capacity - 1, 0), policy.capacity)))
            && (now >= until && governor.Wait? ==>
                  var backoff := Min(policy.baseBackoffMs * Pow2(Min(Min(v, 19), 16)), policy.maxBackoffMs);
                  var wait := Max(Min(governor.ms, U64_MAX), backoff);
                  && e.violations == Min(v + 1, 20) && e.blockedUntilMs == Min(now + wait, U64_MAX)
                  && (d.Some? ==> d.value == Decision(false, wait, 0, policy.capacity)))
  {
  }

  /** A call leaves every other session as it was, or prunes it if it is stale. */
  lemma CheckLeavesOthers(s: State, key: string, policy: Policy, now: nat, governor: Governor, saveOk: bool, k: string)
    requires k != key
    ensures var s' := Checked(s, key, policy, now, governor, saveOk).0;
            && (k in s'.sessions <==> k in s.sessions && !Stale(s, k, now))
            && (k in s'.sessions ==> s'.sessions[k] == s.sessions[k])
  {
  }

  /** When a call saves: after every denial, and otherwise if something changed
      and the last save is five seconds old.  A save that fails is an error. */
  lemma CheckSavesExactly(s: State, key: string, policy: Policy, now: nat, governor: Governor, saveOk: bool)
    ensures var (s', d) := Checked(s, key, policy, now, governor, saveOk);
            var (until, v) := Prior(s, key, now);
            var changed := |s.sessions| > s.maxSessions || (now >= until && (governor.Wait? || v > 0));
            var saves := now < until || governor.Wait? || ((s.dirty || changed) && now >= s.lastSavedMs + 5_000);
            && (d.None? <==> saves && !saveOk)
            && (if saves && saveOk then FileHolds(s') && !s'.dirty && s'.lastSavedMs == now
                else s'.disk == s.disk && s'.lastSavedMs == s.lastSavedMs && s'.dirty == (s.dirty || changed))
  {
  }

  /** The file holds every session, with its block, violations and last-seen time. */
  ghost predicate FileHolds(s: State)
  {
    && s.disk.Keys == s.sessions.Keys
    && forall k :: k in s.disk ==>
         && s.disk[k].blockedUntilMs == s.sessions[k].blockedUntilMs && s.disk[k].violations == s.sessions[k].violations
         && s.disk[k].lastSeenMs == s.sessions[k].lastSeenMs
  }

  /** Loading what was saved brings every session back as it was, but for its policy. */
  lemma LoadReadsSave(s: State, now: nat, maxSessions: nat, later: nat)
    ensures var saved := SaveLocked(s, now, true);
            var s' := Loaded(maxSessions, saved.disk, later);
            && FileHolds(saved) && FileHolds(s') && s'.sessions.Keys == s.sessions.Keys
            && (forall k :: k in s'.sessions ==> s'.sessions[k].policy == Policy(1, 1, 1_000, 60_000))
            && s'.maxSessions == Max(maxSessions, 1) && !s'.dirty && s'.lastSavedMs == later
  {
  }

  // ------------------------------------------------------------------
  // Backoff over whole runs
  // ------------------------------------------------------------------

  datatype Step =
    | Call(key: string, policy: Policy, now: nat, governor: Governor, saveOk: bool)
    | Flush(now: nat, saveOk: bool)
    | Reload(now: nat)

  function Apply(s: State, step: Step): State
  {
    match step
    case Call(key, policy, now, governor, saveOk) => Checked(s, key, policy, now, governor, saveOk).0
    case Flush(now, saveOk) => SaveLocked(s, now, saveOk)
    case Reload(now) => Loaded(s.maxSessions, s.disk, now)
  }

  function Run(s: State, steps: seq<Step>): State
    decreases |steps|
  {
    if steps == [] then s else Run(Apply(s, steps[0]), steps[1..])
  }

  /** Clock readings never go back, starting from `from`. */
  ghost predicate Monotone(from: nat, steps: seq<Step>)
    decreases |steps|
  {
    steps != [] ==> from <= steps[0].now && Monotone(steps[0].now, steps[1..])
  }

  function LastReading(from: nat, steps: seq<Step>): nat
  {
    if steps == [] then from else steps[|steps| - 1].now
  }

  /** The key is blocked until `until` with `v` violations, in memory and on
      disk, and was last seen no earlier than `since`. */
  ghost predicate Blocked(s: State, key: string, until: nat, v: nat, since: nat)
  {
    && key in s.sessions && key in s.disk
    && s.sessions[key].blockedUntilMs == until == s.disk[key].blockedUntilMs
    && s.sessions[key].violations == v == s.disk[key].violations
    && since <= s.sessions[key].lastSeenMs && since <= s.disk[key].lastSeenMs
  }

  /** The denial itself puts the block in memory and on disk before it is returned. */
  lemma DenialBlocks(s: State, key: string, policy: Policy, now: nat, governor: Governor, saveOk: bool)
    requires var (_, d) := Checked(s, key, policy, now, governor, saveOk); d.Some? && !d.value.allowed
    ensures var (s', d) := Checked(s, key, policy, now, governor, saveOk);
            && key in s'.sessions && key in s'.disk
            && s'.disk[key].lastSeenMs == now == s'.sessions[key].lastSeenMs
            && Blocked(s', key, s'.sessions[key].blockedUntilMs, s'.sessions[key].violations, now)
            && (now + d.value.retryAfterMs <= U64_MAX ==> s'.sessions[key].blockedUntilMs == now + d.value.retryAfterMs)
  {
  }

  /** A session seen since `since` outlives every pruning before `until`, if the block is no longer than the idle
      limit. */
  lemma BlockedIsVisible(s: State, key: string, until: nat, v: nat, since: nat, now: nat)
    requires Blocked(s, key, until, v, since) && until <= since + IDLE_TTL_MS && since <= now < until
    ensures key in Visible(s, now) && Visible(s, now)[key] == s.sessions[key]
  {
  }

  lemma StepKeepsBlock(s: State, step: Step, key: string, until: nat, v: nat, since: nat)
    requires Blocked(s, key, until, v, since) && until <= since + IDLE_TTL_MS && since <= step.now < until
    ensures Blocked(Apply(s, step), key, until, v, since)
  {
    BlockedIsVisible(s, key, until, v, since, step.now);
  }

  lemma {:induction false} RunKeepsBlock(s: State, steps: seq<Step>, key: string, until: nat, v: nat, since: nat,
                                         from: nat)
    requires Blocked(s, key, until, v, since) && until <= since + IDLE_TTL_MS
    requires since <= from && Monotone(from, steps) && LastReading(from, steps) < until
    ensures Blocked(Run(s, steps), key, until, v, since) && from <= LastReading(from, steps)
    decreases |steps|
  {
    if steps != [] {
      var rest := steps[1..];
      assert LastReading(steps[0].now, rest) == LastReading(from, steps);
      ReadingsGrow(steps[0].now, rest);
      StepKeepsBlock(s, steps[0], key, until, v, since);
      RunKeepsBlock(Apply(s, steps[0]), rest, key, until, v, since, steps[0].now);
    }
  }

  lemma {:induction false} ReadingsGrow(from: nat, steps: seq<Step>)
    requires Monotone(from, steps)
    ensures from <= LastReading(from, steps)
    decreases |steps|
  {
    if steps != [] { ReadingsGrow(steps[0].now, steps[1..]); }
  }

  /** Backoff is honoured over whole runs.  Once a denial has been returned,
      every later call for the key before the block ends is denied with what
      is left of the block, and changes neither the block nor the violations:
      through calls for other keys, policy changes, pruning, failed and
      successful saves, flushes and reloads, on a clock that does not go back. */
  lemma BackoffHonoured(s: State, key: string, policy: Policy, t0: nat, governor: Governor,
                        steps: seq<Step>, policy': Policy, now: nat, governor': Governor, saveOk: bool)
    requires var (_, d) := Checked(s, key, policy, t0, governor, true);
             d.Some? && !d.value.allowed && d.value.retryAfterMs <= IDLE_TTL_MS && t0 + d.value.retryAfterMs <= U64_MAX
    requires Monotone(t0, steps) && LastReading(t0, steps) <= now
    requires now < t0 + Checked(s, key, policy, t0, governor, true).1.value.retryAfterMs
    ensures var (denied, d) := Checked(s, key, policy, t0, governor, true);
            var before := Run(denied, steps);
            var (after, r) := Checked(before, key, policy', now, governor', saveOk);
            && (r.Some? ==> r.value == Decision(false, t0 + d.value.retryAfterMs - now, 0, policy'.capacity))
            && (saveOk ==> r.Some?)
            && key in denied.sessions && key in after.sessions
            && after.sessions[key].blockedUntilMs == denied.sessions[key].blockedUntilMs == t0 + d.value.retryAfterMs
            && after.sessions[key].violations == denied.sessions[key].violations
  {
    var (denied, d) := Checked(s, key, policy, t0, governor, true);
    DenialBlocks(s, key, policy, t0, governor, true);
    var until, v := denied.sessions[key].blockedUntilMs, denied.sessions[key].violations;
    assert until == t0 + d.value.retryAfterMs;
    RunKeepsBlock(denied, steps, key, until, v, t0, t0);
    BlockedIsVisible(Run(denied, steps), key, until, v, t0, now);
  }

  // ------------------------------------------------------------------
  // When a block is forgotten
  // ------------------------------------------------------------------

  /** A call, for whatever key, that finds the table over its limit at a
      reading past the idle limit of the session of `key`. */
  ghost predicate Prunes(s: State, step: Step, key: string)
  {
    && step.Call? && |s.sessions| > s.maxSessions
    && key in s.sessions && step.now > s.sessions[key].lastSeenMs + IDLE_TTL_MS
  }

  /** A step that writes the state file. */
  ghost predicate Saves(s: State, step: Step)
  {
    match step
    case Call(key, policy, now, governor, saveOk) => saveOk && CheckSaves(s, key, policy, now, governor)
    case Flush(_, saveOk) => saveOk
    case Reload(_) => false
  }

  /** The state before step i of a run. */
  function Before(s: State, steps: seq<Step>, i: nat): State
    requires i <= |steps|
  {
    Run(s, steps[..i])
  }

  ghost predicate PrunedAt(s: State, steps: seq<Step>, key: string, i: nat)
    requires i < |steps|
  {
    Prunes(Before(s, steps, i), steps[i], key)
  }

  ghost predicate SavedAt(s: State, steps: seq<Step>, i: nat)
    requires i < |steps|
  {
    Saves(Before(s, steps, i), steps[i])
  }

  /** No reload among the first n steps brings back what step i removed: each comes after a save. */
  ghost predicate Unrestored(s: State, steps: seq<Step>, i: nat, n: nat)
    requires n <= |steps|
  {
    forall j :: i < j < n && steps[j].Reload? ==> exists l :: i <= l < j && SavedAt(s, steps, l)
  }

  /** Some call among the first n steps prunes the session, and no reload undoes it. */
  ghost predicate Forgotten(s: State, steps: seq<Step>, key: string, n: nat)
    requires n <= |steps|
  {
    exists i :: 0 <= i < n && PrunedAt(s, steps, key, i) && Unrestored(s, steps, i, n)
  }

  /** Memory and file each hold the session blocked until `until` with `v`
      violations, or not at all; they may differ in when it was last seen. */
  ghost predicate Copies(s: State, key: string, until: nat, v: nat)
  {
    && (key in s.sessions ==> s.sessions[key].blockedUntilMs == until && s.sessions[key].violations == v)
    && (key in s.disk ==> s.disk[key].blockedUntilMs == until && s.disk[key].violations == v)
  }

  /** A call for the key that finds its session, before the end of the block: it is denied by the block. */
  ghost predicate HeldBack(s: State, step: Step, key: string, until: nat)
  {
    step.Call? && step.key == key ==> step.now < until && key in Visible(s, step.now)
  }

  /** Every call for the key among the first n steps is held back. */
  ghost predicate AllHeldBack(s: State, steps: seq<Step>, key: string, until: nat, n: nat)
    requires n <= |steps|
  {
    forall i :: 0 <= i < n ==> HeldBack(Before(s, steps, i), steps[i], key, until)
  }

  lemma CallOnCopies(s: State, step: Step, key: string, until: nat, v: nat)
    requires Copies(s, key, until, v) && step.Call? && HeldBack(s, step, key, until)
    ensures var s1 := Decided(s, step.key, step.policy, step.now, step.governor).0;
            && (key in s1.sessions <==> key in s.sessions && !Prunes(s, step, key))
            && (key in s1.sessions ==> s1.sessions[key].blockedUntilMs == until && s1.sessions[key].violations == v)
            && s1.disk == s.disk
  {
  }

  /** What one step, other than a call for the key that gets past its block, does to the two copies. */
  lemma StepOnCopies(s: State, step: Step, key: string, until: nat, v: nat)
    requires Copies(s, key, until, v) && HeldBack(s, step, key, until)
    ensures var s' := Apply(s, step);
            && Copies(s', key, until, v)
            && (key in s'.sessions <==>
                  if step.Reload? then key in s.disk else key in s.sessions && !Prunes(s, step, key))
            && (key in s'.disk <==> if Saves(s, step) then key in s'.sessions else key in s.disk)
  {
    if step.Call? { CallOnCopies(s, step, key, until, v); }
  }

  lemma {:induction false} RunSnoc(s: State, steps: seq<Step>, step: Step)
    ensures Run(s, steps + [step]) == Apply(Run(s, steps), step)
    decreases |steps|
  {
    var all := steps + [step];
    if steps == [] {
      assert all[1..] == [];
    } else {
      assert all[1..] == steps[1..] + [step];
      RunSnoc(Apply(s, steps[0]), steps[1..], step);
    }
  }

  lemma BeforeStep(s: State, steps: seq<Step>, n: nat)
    requires n < |steps|
    ensures Before(s, steps, n + 1) == Apply(Before(s, steps, n), steps[n])
  {
    assert steps[..n + 1] == steps[..n] + [steps[n]];
    RunSnoc(s, steps[..n], steps[n]);
  }

  /** The file has lost the session: some save came after it was forgotten. */
  ghost predicate FileForgot(s: State, steps: seq<Step>, key: string, n: nat)
    requires n <= |steps|
  {
    exists l :: 0 <= l < n && SavedAt(s, steps, l) && Forgotten(s, steps, key, l + 1)
  }

  /** A save after the pruning makes it final: later reloads change nothing. */
  lemma SaveIsFinal(s: State, steps: seq<Step>, key: string, n: nat, i: nat, l: nat)
    requires i <= l < n <= |steps| && PrunedAt(s, steps, key, i)
    requires SavedAt(s, steps, l) && Unrestored(s, steps, i, l + 1)
    ensures Forgotten(s, steps, key, n)
  {
    assert Unrestored(s, steps, i, n);
  }

  lemma FileForgotIsFinal(s: State, steps: seq<Step>, key: string, m: nat, n: nat)
    requires m <= n <= |steps| && FileForgot(s, steps, key, m)
    ensures Forgotten(s, steps, key, n)
  {
    var l :| 0 <= l < m && SavedAt(s, steps, l) && Forgotten(s, steps, key, l + 1);
    var i :| 0 <= i < l + 1 && PrunedAt(s, steps, key, i) && Unrestored(s, steps, i, l + 1);
    SaveIsFinal(s, steps, key, n, i, l);
  }

  lemma ReloadForgets(s: State, steps: seq<Step>, key: string, n: nat)
    requires n < |steps| && steps[n].Reload?
    ensures Forgotten(s, steps, key, n + 1) <==> FileForgot(s, steps, key, n)
  {
    if FileForgot(s, steps, key, n) {
      FileForgotIsFinal(s, steps, key, n, n + 1);
    } else if Forgotten(s, steps, key, n + 1) {
      var i :| 0 <= i < n + 1 && PrunedAt(s, steps, key, i) && Unrestored(s, steps, i, n + 1);
      SaveForgets(s, steps, key, n, i);
    }
  }

  /** What a reload does not bring back had left the file before. */
  lemma SaveForgets(s: State, steps: seq<Step>, key: string, n: nat, i: nat)
    requires i < n < |steps| && steps[n].Reload? && PrunedAt(s, steps, key, i) && Unrestored(s, steps, i, n + 1)
    ensures FileForgot(s, steps, key, n)
  {
    var l :| i <= l < n && SavedAt(s, steps, l);
    assert Unrestored(s, steps, i, l + 1);
    assert Forgotten(s, steps, key, l + 1);
  }

  lemma NextForgets(s: State, steps: seq<Step>, key: string, n: nat)
    requires n < |steps| && !steps[n].Reload?
    ensures Forgotten(s, steps, key, n + 1) <==> Forgotten(s, steps, key, n) || PrunedAt(s, steps, key, n)
  {
    if Forgotten(s, steps, key, n) {
      var i :| 0 <= i < n && PrunedAt(s, steps, key, i) && Unrestored(s, steps, i, n);
      assert Unrestored(s, steps, i, n + 1);
    }
    if PrunedAt(s, steps, key, n) { assert Unrestored(s, steps, n, n + 1); }
    if Forgotten(s, steps, key, n + 1) {
      var i :| 0 <= i < n + 1 && PrunedAt(s, steps, key, i) && Unrestored(s, steps, i, n + 1);
      if i < n { assert Unrestored(s, steps, i, n); }
    }
  }

  lemma NextFileForgets(s: State, steps: seq<Step>, key: string, n: nat)
    requires n < |steps|
    ensures FileForgot(s, steps, key, n + 1)
       <==> if SavedAt(s, steps, n) then Forgotten(s, steps, key, n + 1) else FileForgot(s, steps, key, n)
  {
    if FileForgot(s, steps, key, n + 1) { FileForgotIsFinal(s, steps, key, n + 1, n + 1); }
  }

  /** Both copies through a run that holds the key back, exactly. */
  lemma {:induction false} CopiesThroughRun(s: State, steps: seq<Step>, key: string, until: nat, v: nat, n: nat)
    requires n <= |steps| && Blocked(s, key, until, v, 0) && AllHeldBack(s, steps, key, until, n)
    ensures Copies(Before(s, steps, n), key, until, v)
    ensures key !in Before(s, steps, n).sessions <==> Forgotten(s, steps, key, n)
    ensures key !in Before(s, steps, n).disk <==> FileForgot(s, steps, key, n)
  {
    if n > 0 {
      var m := n - 1;
      CopiesThroughRun(s, steps, key, until, v, m);
      BeforeStep(s, steps, m);
      StepOnCopies(Before(s, steps, m), steps[m], key, until, v);
      if steps[m].Reload? { ReloadForgets(s, steps, key, m); } else { NextForgets(s, steps, key, m); }
      NextFileForgets(s, steps, key, m);
    }
  }

  /** When a block is forgotten, exactly.  Take a session that is blocked in
      memory and on file, as after every returned denial, and any run of calls,
      flushes and reloads in which the key's own calls are held back, whether
      or not their saves succeed.  A further call for the key before the end of
      its block is let through to the governor if and only if some call of the
      run, or this one, found the table over its limit when the session had been
      idle too long, and every later reload came after a save. */
  lemma BlockForgottenExactly(s: State, steps: seq<Step>, key: string, until: nat, v: nat, policy: Policy, now: nat,
                              saveOk: bool)
    requires Blocked(s, key, until, v, 0) && AllHeldBack(s, steps, key, until, |steps|) && now < until
    requires Checked(Run(s, steps), key, policy, now, Admit, saveOk).1.Some?
    ensures var all := steps + [Call(key, policy, now, Admit, saveOk)];
            var d := Checked(Run(s, steps), key, policy, now, Admit, saveOk).1.value;
            d.allowed <==> Forgotten(s, all, key, |all|)
  {
    var n := |steps|;
    var own := Call(key, policy, now, Admit, saveOk);
    var all := steps + [own];
    assert all[..n] == steps == steps[..n];
    CopiesThroughRun(s, steps, key, until, v, n);
    SamePrefixForgets(s, steps, own, key);
    NextForgets(s, all, key, n);
    OwnCall(Run(s, steps), key, until, v, policy, now, saveOk);
  }

  ghost predicate OwnCallAt(steps: seq<Step>, key: string, i: nat)
    requires i < |steps|
  {
    steps[i].Call? && steps[i].key == key
  }

  /** Over whole runs: if every call for the key comes before the end of the
      block, all of them are held back if and only if none of them comes when
      the block is forgotten. */
  lemma {:induction false} HeldBackExactly(s: State, steps: seq<Step>, key: string, until: nat, v: nat, n: nat)
    requires n <= |steps| && Blocked(s, key, until, v, 0)
    requires forall i :: 0 <= i < n && OwnCallAt(steps, key, i) ==> steps[i].now < until
    ensures AllHeldBack(s, steps, key, until, n)
       <==> forall i :: 0 <= i < n && OwnCallAt(steps, key, i) ==> !Forgotten(s, steps, key, i + 1)
  {
    if n > 0 {
      var m := n - 1;
      HeldBackExactly(s, steps, key, until, v, m);
      if AllHeldBack(s, steps, key, until, m) && OwnCallAt(steps, key, m) {
        CopiesThroughRun(s, steps, key, until, v, m);
        NextForgets(s, steps, key, m);
        assert HeldBack(Before(s, steps, m), steps[m], key, until) <==> !Forgotten(s, steps, key, m + 1);
      }
    }
  }

  lemma SamePrefix(s: State, steps: seq<Step>, step: Step, key: string, i: nat)
    requires i < |steps|
    ensures PrunedAt(s, steps, key, i) == PrunedAt(s, steps + [step], key, i)
    ensures SavedAt(s, steps, i) == SavedAt(s, steps + [step], i)
  {
    assert steps[..i] == (steps + [step])[..i];
  }

  lemma SamePrefixRestores(s: State, steps: seq<Step>, step: Step, i: nat)
    ensures Unrestored(s, steps, i, |steps|) <==> Unrestored(s, steps + [step], i, |steps|)
  {
    var n, all := |steps|, steps + [step];
    forall l | 0 <= l < n ensures SavedAt(s, steps, l) == SavedAt(s, all, l) { SamePrefix(s, steps, step, "", l); }
    assert forall j :: 0 <= j < n ==> steps[j] == all[j];
  }

  lemma SamePrefixForgets(s: State, steps: seq<Step>, step: Step, key: string)
    ensures Forgotten(s, steps, key, |steps|) <==> Forgotten(s, steps + [step], key, |steps|)
  {
    forall i | 0 <= i < |steps|
      ensures PrunedAt(s, steps, key, i) == PrunedAt(s, steps + [step], key, i)
      ensures Unrestored(s, steps, i, |steps|) <==> Unrestored(s, steps + [step], i, |steps|)
    {
      SamePrefix(s, steps, step, key, i);
      SamePrefixRestores(s, steps, step, i);
    }
  }

  /** The key's own call gets past its block if the session is gone or goes now. */
  lemma OwnCall(s: State, key: string, until: nat, v: nat, policy: Policy, now: nat, saveOk: bool)
    requires Copies(s, key, until, v) && now < until
    ensures var d := Checked(s, key, policy, now, Admit, saveOk).1;
            var gone := key !in s.sessions || Prunes(s, Call(key, policy, now, Admit, saveOk), key);
            d.Some? ==> (d.value.allowed <==> gone)
  {
  }

  /** A policy whose backoff outlasts the idle limit. */
  function LongPolicy(): Policy { WithBackoff(PerMinute(1, 1), 200_000_000, 200_000_000) }

  /** A limiter with room for one session that found no state file. */
  function Fresh(): State { State(1, map[], false, 0, map[]) }

  /** A denial for k, a call for o, and a later call for o whose save fails. */
  function OverflowRun(k: string, o: string): State
  {
    var s1 := Apply(Fresh(), Call(k, LongPolicy(), 0, Wait(0), true));
    var s2 := Apply(s1, Call(o, LongPolicy(), 1, Admit, true));
    Apply(s2, Call(o, LongPolicy(), 100_000_000, Admit, false))
  }

  lemma LongBackoff()
    ensures ExponentialBackoffMs(LongPolicy(), 1) == 200_000_000
  {
    assert Pow2(0) == 1;
  }

  /** From an empty file, another key's call prunes a key that is blocked for
      longer than the idle limit, and its save fails: memory has forgotten the
      block while the file still has it. */
  lemma PruneOutlivesBlock(k: string, o: string)
    requires k != o
    ensures var s := OverflowRun(k, o);
            k !in s.sessions && |s.sessions| <= s.maxSessions && s.disk == map[k := Persisted(200_000_000, 1, 0)]
  {
    LongBackoff();
    var s1 := Apply(Fresh(), Call(k, LongPolicy(), 0, Wait(0), true));
    assert s1.sessions == map[k := Entry(LongPolicy(), 200_000_000, 1, 0)];
    assert s1.disk == map[k := Persisted(200_000_000, 1, 0)];
    var s2 := Apply(s1, Call(o, LongPolicy(), 1, Admit, true));
    assert s2.sessions == s1.sessions[o := Entry(LongPolicy(), 0, 0, 1)];
    assert s2.disk == s1.disk;
    assert Pruned(s2.sessions, 100_000_000) == map[];
    assert OverflowRun(k, o).sessions == map[o := Entry(LongPolicy(), 0, 0, 100_000_000)];
  }

  /** There the next call for the key is allowed, with the block still on and
      the table within its limit; after a reload it is denied again. */
  lemma ReloadBringsBlockBack(k: string, o: string, now: nat, governor: Governor)
    requires k != o && 100_000_000 <= now < 200_000_000
    ensures var s := OverflowRun(k, o);
            && Decided(s, k, LongPolicy(), now, Admit).1.allowed
            && !Decided(Apply(s, Reload(now)), k, LongPolicy(), now, governor).1.allowed
  {
    PruneOutlivesBlock(k, o);
    var r := Apply(OverflowRun(k, o), Reload(now));
    assert r.sessions == map[k := Entry(PerMinute(1, 1), 200_000_000, 1, 0)];
  }

  /** A denial by the governor waits at least the backoff for the violations it leaves. */
  lemma DenialWaitsAtLeastBackoff(s: State, key: string, policy: Policy, now: nat, ms: nat)
    requires now >= Touched(s, key, policy, now).blockedUntilMs
    ensures var (s', d) := Checked(s, key, policy, now, Wait(ms), true);
            && d.Some? && !d.value.allowed
            && d.value.retryAfterMs >= ExponentialBackoffMs(policy, s'.sessions[key].violations)
            && d.value.retryAfterMs >= Min(ms, U64_MAX)
            && s'.sessions[key].violations >= 1
  {
  }

  function ViolationsOf(s: State, key: string): nat { if key in s.sessions then s.sessions[key].violations else 0 }

  function SavedViolations(s: State, key: string): nat { if key in s.disk then s.disk[key].violations else 0 }

  /** A call that the governor denies the key: it is not blocked, and must wait. */
  ghost predicate Denies(s: State, step: Step, key: string)
  {
    step.Call? && step.key == key && step.governor.Wait? && step.now >= Prior(s, key, step.now).0
  }

  /** The step does not admit the key, does not prune it, and reloads no other count than memory has. */
  ghost predicate Accumulates(s: State, step: Step, key: string)
  {
    match step
    case Call(k, _, now, governor, _) =>
      && (key in s.sessions ==> !Stale(s, key, now))
      && (k == key && governor.Admit? ==> now < Prior(s, key, now).0)
    case Flush(_, _) => true
    case Reload(_) => SavedViolations(s, key) == ViolationsOf(s, key)
  }

  ghost predicate AllAccumulate(s: State, steps: seq<Step>, key: string)
    decreases |steps|
  {
    steps != [] ==> Accumulates(s, steps[0], key) && AllAccumulate(Apply(s, steps[0]), steps[1..], key)
  }

  /** How many calls of the run the governor denies the key. */
  ghost function Denials(s: State, steps: seq<Step>, key: string): nat
    decreases |steps|
  {
    if steps == [] then 0
    else (if Denies(s, steps[0], key) then 1 else 0) + Denials(Apply(s, steps[0]), steps[1..], key)
  }

  lemma StepAccumulates(s: State, step: Step, key: string)
    requires Accumulates(s, step, key) && ViolationsOf(s, key) <= 20
    ensures ViolationsOf(Apply(s, step), key) == Min(ViolationsOf(s, key) + (if Denies(s, step, key) then 1 else 0), 20)
  {
    if step.Call? && step.key != key {
      CheckLeavesOthers(s, step.key, step.policy, step.now, step.governor, step.saveOk, key);
    }
  }

  /** Violations accumulate over runs: however many denials come without an
      admitted call, a pruning or a reload of another count, each adds one, up to 20. */
  lemma {:induction false} ViolationsAccumulate(s: State, steps: seq<Step>, key: string)
    requires AllAccumulate(s, steps, key) && ViolationsOf(s, key) <= 20
    ensures ViolationsOf(Run(s, steps), key) == Min(ViolationsOf(s, key) + Denials(s, steps, key), 20)
    decreases |steps|
  {
    if steps != [] {
      StepAccumulates(s, steps[0], key);
      ViolationsAccumulate(Apply(s, steps[0]), steps[1..], key);
    }
  }

  ghost predicate ViolationsBounded(s: State)
  {
    && (forall k :: k in s.sessions ==> s.sessions[k].violations <= MAX_VIOLATIONS)
    && (forall k :: k in s.disk ==> s.disk[k].violations <= MAX_VIOLATIONS)
  }

  lemma StepKeepsViolationsBounded(s: State, step: Step)
    requires ViolationsBounded(s)
    ensures ViolationsBounded(Apply(s, step))
  {
    if step.Call? {
      var e := Touched(s, step.key, step.policy, step.now);
      assert e.violations <= MAX_VIOLATIONS;
      assert Decide(e, step.now, step.governor).0.violations <= MAX_VIOLATIONS;
    }
  }

  /** On a state file the limiter wrote itself, violations never pass 20. */
  lemma {:induction false} ViolationsStayBounded(s: State, steps: seq<Step>)
    requires ViolationsBounded(s)
    ensures ViolationsBounded(Run(s, steps))
    decreases |steps|
  {
    if steps != [] {
      StepKeepsViolationsBounded(s, steps[0]);
      ViolationsStayBounded(Apply(s, steps[0]), steps[1..]);
    }
  }
}
