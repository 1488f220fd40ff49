/** The gateway: it builds a claim once, then appends signed events to one
    hash chain per team under a lock. */
module Gateway {
  import opened Common
  import opened Sorting
  import opened EatChain
  import opened CaptureClaim
  import opened Scoring

  const ZERO_HASH := "sha256:0000000000000000000000000000000000000000000000000000000000000000"

  datatype Config = Config(
    issuer: string, hackathonId: string, gatewayId: string, competitionUrl: string, gatewayManifestUrl: string,
    cvmReceiptHash: string, cvmReceiptUrl: string, cvmReceiptBody: Option<bytes>, valueX: string, policyHash: string,
    scoringRuleHash: string, enforcementMode: string, startUrl: string, captureMethod: string, assurance: string,
    registryUrl: string, acceptedTeePlatforms: seq<string>, provider: string)

  /** What `main` fixes for the lifetime of the process. */
  datatype Identity = Identity(
    cfg: Config, key: bytes, manifest: ContestManifest, manifestHash: string, claim: Option<Claim>)

  function NewManifest(c: Crypto, cfg: Config, key: bytes): ContestManifest
  {
    ContestManifest(
      MANIFEST_VERSION, MANIFEST_PROFILE, cfg.issuer, cfg.hackathonId, cfg.gatewayId, cfg.competitionUrl,
      cfg.gatewayManifestUrl, cfg.cvmReceiptHash, cfg.valueX, cfg.policyHash, cfg.scoringRuleHash,
      cfg.enforcementMode, cfg.startUrl, [cfg.captureMethod],
      TrustPolicy(true, cfg.acceptedTeePlatforms, cfg.cvmReceiptUrl, cfg.registryUrl, "cvm-eat-v2"),
      JwkOf(c, c.publicKey(key)), ["llm.call", "submission"])
  }

  /** The start of `main`; `None` is a refusal to start. */
  function StartUp(c: Crypto, lib: EatLib, cfg: Config, key: bytes): Option<Identity>
  {
    var manifest := NewManifest(c, cfg, key);
    var hash := ManifestHash(c, manifest);
    if cfg.assurance != "attested" then Some(Identity(cfg, key, manifest, hash, None))
    else if cfg.cvmReceiptBody.None? then None
    else if Trim(cfg.valueX) == "" || cfg.valueX == "unknown" then None
    else match BuildClaim(c, lib, manifest, hash, cfg.cvmReceiptBody.value,
                          cfg.captureMethod, cfg.assurance, cfg.enforcementMode)
      case Err(_) => None
      case Ok(claim) => Some(Identity(cfg, key, manifest, hash, Some(claim)))
  }

  /** A gateway starts exactly when it does not call itself attested, or has a
      receipt and a real Value X and there are grounds for its claim. */
  lemma StartsExactly(c: Crypto, lib: EatLib, cfg: Config, key: bytes)
    ensures StartUp(c, lib, cfg, key).Some?
       <==> || cfg.assurance != "attested"
            || (&& cfg.cvmReceiptBody.Some? && Trim(cfg.valueX) != "" && cfg.valueX != "unknown"
                && exists stages :: ClaimGrounds(c, lib, NewManifest(c, cfg, key), cfg.cvmReceiptBody.value,
                                                 cfg.captureMethod, cfg.assurance, cfg.enforcementMode, stages))
  {
    if cfg.cvmReceiptBody.Some? {
      var manifest := NewManifest(c, cfg, key);
      ClaimBuiltExactly(c, lib, manifest, ManifestHash(c, manifest), cfg.cvmReceiptBody.value,
                        cfg.captureMethod, cfg.assurance, cfg.enforcementMode);
    }
  }

  /** The manifest publishes the configuration, and the gateway's own key. */
  ghost predicate ManifestOf(c: Crypto, cfg: Config, key: bytes, m: ContestManifest)
  {
    && m.version == 1 && m.profile == "https://cvm.dev/llm-contest-manifest/v1"
    && m.issuer == cfg.issuer && m.hackathonId == cfg.hackathonId && m.gatewayId == cfg.gatewayId
    && m.competitionUrl == cfg.competitionUrl && m.gatewayManifestUrl == cfg.gatewayManifestUrl
    && m.cvmReceiptHash == cfg.cvmReceiptHash && m.valueX == cfg.valueX
    && m.policyHash == cfg.policyHash && m.scoringRuleHash == cfg.scoringRuleHash
    && m.enforcementMode == cfg.enforcementMode && m.startUrl == cfg.startUrl
    && m.captureMethods == [cfg.captureMethod] && m.eventKinds == ["llm.call", "submission"]
    && m.trustPolicy.required && m.trustPolicy.acceptedTeePlatforms == cfg.acceptedTeePlatforms
    && m.trustPolicy.cvmReceiptUrl == cfg.cvmReceiptUrl && m.trustPolicy.registryUrl == cfg.registryUrl
    && m.trustPolicy.verifierProfile == "cvm-eat-v2"
    && m.eventSigningJwk == PublicJwk("OKP", "Ed25519", c.base64Url(c.publicKey(key)))
  }

  /** What a started gateway is: its configuration and key, the manifest that
      publishes them, that manifest's hash, and a claim exactly if it calls itself attested. */
  lemma StartedIdentity(c: Crypto, lib: EatLib, cfg: Config, key: bytes, id: Identity)
    requires StartUp(c, lib, cfg, key) == Some(id)
    ensures id.cfg == cfg && id.key == key && ManifestOf(c, cfg, key, id.manifest)
    ensures id.manifestHash == c.sha256(c.encodeManifest(id.manifest))
    ensures id.claim.Some? <==> cfg.assurance == "attested"
    ensures id.claim.Some? ==>
              ClaimNames(c, id.claim.value, id.manifest, id.manifestHash,
                         cfg.captureMethod, cfg.assurance, cfg.enforcementMode)
  {
    if id.claim.Some? {
      ClaimBuiltExactly(c, lib, id.manifest, id.manifestHash, cfg.cvmReceiptBody.value,
                        cfg.captureMethod, cfg.assurance, cfg.enforcementMode);
    }
  }

  /** A model request and its answer, with what was read from their JSON. */
  datatype Request = Request(
    teamId: string, eventId: string, startedAtMs: nat, completedAtMs: nat, agentSessionId: string,
    body: bytes, answer: bytes, providerRequestId: string, apiFamily: string, model: string,
    usage: map<string, int>, toolCalls: nat, providerUsage: Option<string>)

  function Subject(id: Identity, req: Request): map<string, string>
  {
    map["provider" := id.cfg.provider]["provider_request_id" := req.providerRequestId]
       ["api_family" := req.apiFamily]["model" := req.model]
  }

  function Metrics(req: Request): map<string, int>
  {
    req.usage["latency_ms" := SaturatingSub(req.completedAtMs, req.startedAtMs)]["tool_call_count" := req.toolCalls]
  }

  function RequestHashes(c: Crypto, req: Request): map<string, string>
  {
    map["request" := c.sha256(req.body)]["response" := c.sha256(req.answer)]
  }

  datatype TeamChain = TeamChain(nextIndex: nat, previousHash: string)

  datatype State = State(chains: map<string, TeamChain>, log: seq<ContestEvent>)

  const INITIAL := State(map[], [])

  function Evidence(id: Identity, req: Request): map<string, string>
  {
    var usage := if req.providerUsage.Some? then map["provider_usage" := req.providerUsage.value] else map[];
    var base := usage["gateway_usage" := "provider-reported"]["enforcement_mode" := id.cfg.enforcementMode];
    if id.claim.Some? then base + RaEvidence(id.claim.value) else base
  }

  function UnsignedEvent(c: Crypto, id: Identity, chain: TeamChain, req: Request): ContestEvent
  {
    ContestEvent(
      EVENT_VERSION, EVENT_PROFILE, req.eventId, "llm.call", id.cfg.hackathonId, req.teamId, id.cfg.gatewayId,
      id.manifestHash, id.cfg.captureMethod, id.cfg.assurance, chain.nextIndex, chain.previousHash,
      req.startedAtMs, req.completedAtMs, EventActor("agent", req.agentSessionId),
      Subject(id, req), Metrics(req), RequestHashes(c, req), Evidence(id, req), "")
  }

  function NewEvent(c: Crypto, id: Identity, chain: TeamChain, req: Request): ContestEvent
  {
    Sign(c, UnsignedEvent(c, id, chain, req), id.key)
  }

  function ChainOf(s: State, team: string): TeamChain { GetOr(s.chains, team, TeamChain(0, ZERO_HASH)) }

  /** The locked section: entry, build, sign, append, advance.  A failed append
      leaves the entry in the map but does not advance it. */
  function Locked(c: Crypto, id: Identity, s: State, req: Request, appendOk: bool): (State, Option<ContestEvent>)
  {
    var chain := ChainOf(s, req.teamId);
    var event := NewEvent(c, id, chain, req);
    if appendOk then
      (State(s.chains[req.teamId := TeamChain(chain.nextIndex + 1, EventHash(c, event))], s.log + [event]), Some(event))
    else
      (State(s.chains[req.teamId := chain], s.log), None)
  }

  /** The gateway process with its lock-protected map and append-only log. */
  class GatewayProcess {
    const id: Identity
    var chains: map<string, TeamChain>
    var log: seq<ContestEvent>

    ghost function Abstract(): State
      reads this
    {
      State(chains, log)
    }

    constructor (id: Identity)
      ensures this.id == id && Abstract() == INITIAL
    {
      this.id := id;
      chains, log := map[], [];
    }

    method BuildLlmEvent(c: Crypto, req: Request, appendOk: bool) returns (r: Option<ContestEvent>)
      modifies this
      ensures (Abstract(), r) == Locked(c, id, old(Abstract()), req, appendOk)
      ensures r.Some? <==> appendOk
      ensures r.Some? ==> Carries(c, id, req, r.value) && log == old(log) + [r.value]
    {
      if req.teamId !in chains {
        chains := chains[req.teamId := TeamChain(0, ZERO_HASH)];
      }
      var chain := chains[req.teamId];
      var event := NewEvent(c, id, chain, req);
      var eventHash := EventHash(c, event);
      NewEventCarries(c, id, chain, req);
      if !appendOk {
        assert chains == old(chains)[req.teamId := chain];
        return None;
      }
      log := log + [event];
      chains := chains[req.teamId := TeamChain(chain.nextIndex + 1, eventHash)];
      assert chains == old(chains)[req.teamId := TeamChain(chain.nextIndex + 1, eventHash)];
      return Some(event);
    }
  }

  /** Every interleaving of requests is some order of their locked sections. */
  function Run(c: Crypto, id: Identity, steps: seq<(Request, bool)>): State
  {
    if steps == [] then INITIAL
    else
      var n := |steps| - 1;
      Locked(c, id, Run(c, id, steps[..n]), steps[n].0, steps[n].1).0
  }

  /** Indices 0..n-1, the first event names ZERO_HASH and every other the hash before it. */
  ghost predicate WellChained(c: Crypto, es: seq<ContestEvent>)
  {
    forall i :: 0 <= i < |es| ==>
      && es[i].eventIndex == i
      && es[i].previousTeamEventHash == HeadHash(c, es[..i])
  }

  ghost function HeadHash(c: Crypto, es: seq<ContestEvent>): string
  {
    if es == [] then ZERO_HASH else EventHash(c, es[|es| - 1])
  }

  lemma WellChainedPrefix(c: Crypto, es: seq<ContestEvent>, n: nat)
    requires n <= |es| && WellChained(c, es)
    ensures WellChained(c, es[..n])
  {
  }

  lemma WellChainedSnoc(c: Crypto, es: seq<ContestEvent>, e: ContestEvent)
    requires WellChained(c, es) && e.eventIndex == |es| && e.previousTeamEventHash == HeadHash(c, es)
    ensures WellChained(c, es + [e])
  {
    var all := es + [e];
    forall i | 0 <= i < |all| ensures all[i].eventIndex == i && all[i].previousTeamEventHash == HeadHash(c, all[..i]) {
      assert all[..i] == es[..i];
      assert i == |es| ==> es[..i] == es;
    }
  }

  /** The chain map summarises the log of every team. */
  ghost predicate ChainsMatchLog(c: Crypto, s: State)
  {
    forall team :: ChainMatches(c, s, team)
  }

  /** The entry of the map is the summary of an unbroken chain. */
  ghost predicate Summarises(c: Crypto, es: seq<ContestEvent>, chain: TeamChain)
  {
    WellChained(c, es) && chain == TeamChain(|es|, HeadHash(c, es))
  }

  ghost predicate ChainMatches(c: Crypto, s: State, team: string)
  {
    Summarises(c, Filter(OfTeam(team), s.log), ChainOf(s, team))
  }

  /** The next event extends the chain, and its hash is the new head. */
  lemma NextSummarises(c: Crypto, es: seq<ContestEvent>, chain: TeamChain, e: ContestEvent)
    requires Summarises(c, es, chain) && e.eventIndex == chain.nextIndex && e.previousTeamEventHash == chain.previousHash
    ensures Summarises(c, es + [e], TeamChain(e.eventIndex + 1, EventHash(c, e)))
  {
    WellChainedSnoc(c, es, e);
  }

  lemma LockedKeepsChain(c: Crypto, id: Identity, s: State, req: Request, team: string)
    requires ChainMatches(c, s, team) && ChainMatches(c, s, req.teamId)
    ensures ChainMatches(c, Locked(c, id, s, req, true).0, team)
  {
    var chain := ChainOf(s, req.teamId);
    var e := NewEvent(c, id, chain, req);
    FilterSnoc(OfTeam(team), s.log, e);
    if team == req.teamId { NextSummarises(c, Filter(OfTeam(team), s.log), chain, e); }
  }

  lemma LockedKeepsChains(c: Crypto, id: Identity, s: State, req: Request, appendOk: bool)
    requires ChainsMatchLog(c, s)
    ensures ChainsMatchLog(c, Locked(c, id, s, req, appendOk).0)
  {
    forall team ensures ChainMatches(c, Locked(c, id, s, req, appendOk).0, team) {
      assert ChainMatches(c, s, team) && ChainMatches(c, s, req.teamId);
      if appendOk { LockedKeepsChain(c, id, s, req, team); }
    }
  }

  /** Chain integrity: after every interleaving, each team's events in the log
      form one unbroken chain whose head is the one the gateway holds. */
  lemma {:induction false} ChainIntegrity(c: Crypto, id: Identity, steps: seq<(Request, bool)>)
    ensures ChainsMatchLog(c, Run(c, id, steps))
  {
    if steps != [] {
      var n := |steps| - 1;
      ChainIntegrity(c, id, steps[..n]);
      LockedKeepsChains(c, id, Run(c, id, steps[..n]), steps[n].0, steps[n].1);
    }
  }

  lemma EventHashInjective(c: Crypto, x: ContestEvent, y: ContestEvent)
    requires InjectiveHash(c) && Sound(c) && EventHash(c, x) == EventHash(c, y)
    ensures x == y
  {
  }

  /** One step back: chains with one head end in one event, so are equally long
      and have one head before it. */
  lemma SameHeadStep(c: Crypto, a: seq<ContestEvent>, b: seq<ContestEvent>)
    requires InjectiveHash(c) && Sound(c)
    requires WellChained(c, a) && WellChained(c, b) && a != [] && b != []
    requires HeadHash(c, a) == HeadHash(c, b)
    ensures |a| == |b| && a[|a| - 1] == b[|b| - 1]
    ensures HeadHash(c, a[..|a| - 1]) == HeadHash(c, b[..|b| - 1])
  {
    EventHashInjective(c, a[|a| - 1], b[|b| - 1]);
  }

  /** With an injective hash the head hash fixes the whole history: two
      non-empty chains with one head are the same chain, from whatever run. */
  lemma {:induction false} HeadDeterminesHistory(c: Crypto, a: seq<ContestEvent>, b: seq<ContestEvent>)
    requires InjectiveHash(c) && Sound(c)
    requires WellChained(c, a) && WellChained(c, b) && a != [] && b != []
    requires HeadHash(c, a) == HeadHash(c, b)
    ensures a == b
    decreases |a|
  {
    SameHeadStep(c, a, b);
    var n := |a| - 1;
    if n > 0 {
      WellChainedPrefix(c, a, n);
      WellChainedPrefix(c, b, n);
      HeadDeterminesHistory(c, a[..n], b[..n]);
    }
    SameInitSameLast(a, b);
  }

  lemma SameInitSameLast(a: seq<ContestEvent>, b: seq<ContestEvent>)
    requires |a| == |b| > 0 && a[..|a| - 1] == b[..|b| - 1] && a[|a| - 1] == b[|b| - 1]
    ensures a == b
  {
    assert a == a[..|a| - 1] + [a[|a| - 1]] && b == b[..|b| - 1] + [b[|b| - 1]];
  }

  // ------------------------------------------------------------------
  // What an event says of its request
  // ------------------------------------------------------------------

  /** The event's plain fields are the request's and the configuration's. */
  ghost predicate CarriesRequest(c: Crypto, id: Identity, req: Request, e: ContestEvent)
  {
    && e.kind == "llm.call" && e.eventId == req.eventId && e.teamId == req.teamId
    && e.hackathonId == id.cfg.hackathonId && e.gatewayId == id.cfg.gatewayId && e.manifestHash == id.manifestHash
    && e.captureMethod == id.cfg.captureMethod && e.assurance == id.cfg.assurance
    && e.startedAtMs == req.startedAtMs && e.completedAtMs == req.completedAtMs
    && e.actor.kind == "agent" && e.actor.agentSessionId == req.agentSessionId
    && e.hashes == map["request" := c.sha256(req.body), "response" := c.sha256(req.answer)]
  }

  /** Its metrics are the usage as reported, with latency and tool calls on top. */
  ghost predicate CarriesUsage(req: Request, e: ContestEvent)
  {
    && "latency_ms" in e.metrics && "tool_call_count" in e.metrics
    && e.metrics["latency_ms"] == Max(req.completedAtMs - req.startedAtMs, 0)
    && e.metrics["tool_call_count"] == req.toolCalls
    && forall k :: k != "latency_ms" && k != "tool_call_count" ==>
         (k in e.metrics <==> k in req.usage) && (k in req.usage ==> e.metrics[k] == req.usage[k])
  }

  /** Its subject and evidence name the model call; usage is quoted exactly if
      the provider reported any, and a claim can be read back whole. */
  ghost predicate CarriesEvidence(id: Identity, req: Request, e: ContestEvent)
  {
    && Holds(e.subject, "provider", id.cfg.provider) && Holds(e.subject, "model", req.model)
    && Holds(e.subject, "provider_request_id", req.providerRequestId) && Holds(e.subject, "api_family", req.apiFamily)
    && Holds(e.evidence, "gateway_usage", "provider-reported")
    && Holds(e.evidence, "enforcement_mode", id.cfg.enforcementMode)
    && ("provider_usage" in e.evidence <==> req.providerUsage.Some?)
    && (req.providerUsage.Some? ==> e.evidence["provider_usage"] == req.providerUsage.value)
    && (id.claim.Some? ==>
          DepthValue(GetOr(e.evidence, "ra_chain_depth", "")) >= 0 && ClaimIn(e.evidence) == id.claim.value)
  }

  ghost predicate Carries(c: Crypto, id: Identity, req: Request, e: ContestEvent)
  {
    CarriesRequest(c, id, req, e) && CarriesUsage(req, e) && CarriesEvidence(id, req, e)
  }

  lemma PlainNames()
    ensures !("ra_" <= "gateway_usage") && !("ra_" <= "enforcement_mode") && !("ra_" <= "provider_usage")
  {
    var r := "ra_"[0];
    assert r != "gateway_usage"[0] && r != "enforcement_mode"[0] && r != "provider_usage"[0];
  }

  lemma EvidenceOfRequest(id: Identity, req: Request, e: ContestEvent)
    requires e.evidence == Evidence(id, req) && e.subject == Subject(id, req)
    ensures CarriesEvidence(id, req, e)
  {
    var usage := if req.providerUsage.Some? then map["provider_usage" := req.providerUsage.value] else map[];
    var base := usage["gateway_usage" := "provider-reported"]["enforcement_mode" := id.cfg.enforcementMode];
    PlainNames();
    if id.claim.Some? { EvidenceReadsBack(base, id.claim.value); }
  }

  lemma NewEventCarries(c: Crypto, id: Identity, chain: TeamChain, req: Request)
    ensures Carries(c, id, req, NewEvent(c, id, chain, req))
  {
    EvidenceOfRequest(id, req, NewEvent(c, id, chain, req));
  }

  /** The requests whose append worked, in order. */
  function Appended(steps: seq<(Request, bool)>): seq<Request>
  {
    if steps == [] then []
    else
      var n := |steps| - 1;
      if steps[n].1 then Appended(steps[..n]) + [steps[n].0] else Appended(steps[..n])
  }

  /** The log of every run is, position by position, the requests whose append
      worked, and each event carries its request. */
  lemma {:induction false} LogCarriesRequests(c: Crypto, id: Identity, steps: seq<(Request, bool)>)
    ensures var log, reqs := Run(c, id, steps).log, Appended(steps);
            |log| == |reqs| && forall i :: 0 <= i < |log| ==> Carries(c, id, reqs[i], log[i])
  {
    if steps != [] {
      var n := |steps| - 1;
      LogCarriesRequests(c, id, steps[..n]);
      NewEventCarries(c, id, ChainOf(Run(c, id, steps[..n]), steps[n].0.teamId), steps[n].0);
    }
  }

  function ReportedTokens(req: Request): int { GetOr(req.usage, "total_tokens", 0) }

  /** Conservation: the tokens in the log are the tokens reported for the appended requests. */
  lemma {:induction false} TokensConserved(c: Crypto, id: Identity, steps: seq<(Request, bool)>)
    ensures Sum(TotalTokens, Run(c, id, steps).log) == Sum(ReportedTokens, Appended(steps))
  {
    if steps != [] {
      var n := |steps| - 1;
      var s, req := Run(c, id, steps[..n]), steps[n].0;
      var e := NewEvent(c, id, ChainOf(s, req.teamId), req);
      TokensConserved(c, id, steps[..n]);
      NewEventCarries(c, id, ChainOf(s, req.teamId), req);
      assert TotalTokens(e) == ReportedTokens(req);
      SumSnoc(TotalTokens, s.log, e);
      SumSnoc(ReportedTokens, Appended(steps[..n]), req);
    }
  }

  // ------------------------------------------------------------------
  // What the gateway emits, the service accepts
  // ------------------------------------------------------------------

  /** What the service must find in an event to take it, given the gateway's own documents. */
  ghost predicate Acceptable(c: Crypto, lib: EatLib, id: Identity, e: ContestEvent)
  {
    && EventFromCbor(c, c.encodeEvent(e)) == Some(e)
    && VerifyEvent(c, e, c.publicKey(id.key))
    && ValidateAttested(c, lib, e, Fetched(Some(c.encodeManifest(id.manifest)), id.cfg.cvmReceiptBody))
  }

  lemma SignedEventVerifies(c: Crypto, bare: ContestEvent, key: bytes)
    requires Sound(c) && bare.signature == ""
    ensures VerifyEvent(c, Sign(c, bare, key), c.publicKey(key))
  {
    var sig := c.sign(key, SigningBytes(c, bare));
    assert c.base64UrlDecode(c.base64Url(sig)) == Some(sig);
  }

  lemma OwnKeyDecodes(c: Crypto, cfg: Config, key: bytes)
    requires Sound(c)
    ensures VerifyingKey(c, NewManifest(c, cfg, key).eventSigningJwk) == Some(c.publicKey(key))
    ensures ManifestFromCbor(c, c.encodeManifest(NewManifest(c, cfg, key))) == Some(NewManifest(c, cfg, key))
  {
  }

  lemma NewEventMatchesClaim(c: Crypto, lib: EatLib, cfg: Config, key: bytes, id: Identity, chain: TeamChain,
                             req: Request)
    requires StartUp(c, lib, cfg, key) == Some(id) && cfg.assurance == "attested"
    ensures var e := NewEvent(c, id, chain, req);
            && Holds(e.evidence, "enforcement_mode", cfg.enforcementMode)
            && EventMatchesClaim(e, id.claim.value)
  {
    ClaimEvidence(id, req);
  }

  lemma NewEventAcceptable(c: Crypto, lib: EatLib, cfg: Config, key: bytes, id: Identity, chain: TeamChain,
                           req: Request)
    requires Sound(c) && StartUp(c, lib, cfg, key) == Some(id)
    ensures Acceptable(c, lib, id, NewEvent(c, id, chain, req))
  {
    var e := NewEvent(c, id, chain, req);
    assert c.decodeEvent(c.encodeEvent(e)) == Some(e);
    SignedEventVerifies(c, UnsignedEvent(c, id, chain, req), key);
    if cfg.assurance == "attested" {
      OwnKeyDecodes(c, cfg, key);
      NewEventMatchesClaim(c, lib, cfg, key, id, chain, req);
    }
  }

  /** Completeness: every event in the log of every run of a gateway that
      started passes the service's decoding and validation when the service
      fetches that gateway's own manifest and receipt. */
  lemma {:induction false} EmittedEventsAcceptable(c: Crypto, lib: EatLib, cfg: Config, key: bytes, id: Identity,
                                                   steps: seq<(Request, bool)>)
    requires Sound(c) && StartUp(c, lib, cfg, key) == Some(id)
    ensures forall e :: e in Run(c, id, steps).log ==> Acceptable(c, lib, id, e)
  {
    if steps != [] {
      var n := |steps| - 1;
      EmittedEventsAcceptable(c, lib, cfg, key, id, steps[..n]);
      NewEventAcceptable(c, lib, cfg, key, id, ChainOf(Run(c, id, steps[..n]), steps[n].0.teamId), steps[n].0);
    }
  }

  lemma ClaimEvidence(id: Identity, req: Request)
    requires id.claim.Some?
    ensures var ev := Evidence(id, req);
            && Holds(ev, "enforcement_mode", id.cfg.enforcementMode)
            && Holds(ev, "ra_profile", id.claim.value.profile)
            && Holds(ev, "ra_cvm_receipt_hash", id.claim.value.cvmReceiptHash)
            && Holds(ev, "ra_event_signing_key_hash", id.claim.value.eventSigningKeyHash)
  {
  }
}
