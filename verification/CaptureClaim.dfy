/** Contest events, manifests and the capture claim that ties an event to a
    verified TEE receipt. */
module CaptureClaim {
  import opened Common
  import opened EatChain

  const MANIFEST_VERSION := 1
  const MANIFEST_PROFILE := "https://cvm.dev/llm-contest-manifest/v1"
  const EVENT_VERSION := 1
  const EVENT_PROFILE := "https://cvm.dev/contest-event/v1"
  const CAPTURE_RA_PROFILE := "https://cvm.dev/llm-capture-ra/v1"

  datatype PublicJwk = PublicJwk(kty: string, crv: string, x: string)

  datatype TrustPolicy = TrustPolicy(
    required: bool,
    acceptedTeePlatforms: seq<string>,
    cvmReceiptUrl: string,
    registryUrl: string,
    verifierProfile: string)

  datatype ContestManifest = ContestManifest(
    version: nat, profile: string, issuer: string, hackathonId: string, gatewayId: string,
    competitionUrl: string, gatewayManifestUrl: string, cvmReceiptHash: string, valueX: string,
    policyHash: string, scoringRuleHash: string, enforcementMode: string, startUrl: string,
    captureMethods: seq<string>, trustPolicy: TrustPolicy, eventSigningJwk: PublicJwk, eventKinds: seq<string>)

  datatype EventActor = EventActor(kind: string, agentSessionId: string)

  datatype ContestEvent = ContestEvent(
    version: nat, profile: string, eventId: string, kind: string, hackathonId: string, teamId: string,
    gatewayId: string, manifestHash: string, captureMethod: string, assurance: string,
    eventIndex: nat, previousTeamEventHash: string, startedAtMs: nat, completedAtMs: nat,
    actor: EventActor, subject: map<string, string>, metrics: map<string, int>,
    hashes: map<string, string>, evidence: map<string, string>, signature: string)

  datatype Claim = Claim(
    profile: string, captureMethod: string, assurance: string, enforcement: string, requirement: string,
    verifierProfile: string, platform: string, valueX: string, platformMeasurement: string,
    quoteBindingHash: string, cvmReceiptHash: string, manifestHash: string, eventSigningKeyHash: string,
    chainDepth: nat)

  datatype PathSpec = PathSpec(captureMethod: string, enforcement: string, requirement: string)

  /** The capture paths that may call themselves "attested". */
  const REMOTE_ATTESTED_CAPTURE_PATHS: seq<PathSpec> := [
    PathSpec("gateway_proxy", "routed",
      "gateway endpoint serves manifest and model API from a Cvm-verified TEE"),
    PathSpec("gateway_proxy", "managed_keys",
      "organizer-managed provider keys live behind a Cvm-verified TEE gateway"),
    PathSpec("local_proxy", "routed",
      "local-model proxy runs in a Cvm-verified TEE sidecar or workspace"),
    PathSpec("sdk_cli_wrapper", "routed",
      "wrapper event signer runs inside a Cvm-verified TEE workspace"),
    PathSpec("browser_extension", "attested_broker",
      "browser observer is mediated by a Cvm-verified broker; desktop extension alone is insufficient"),
    PathSpec("strict_workbench", "strict_workbench",
      "workbench launcher and event signer run inside a Cvm-verified TEE"),
    PathSpec("tee_workspace", "full_tee",
      "participant workspace and event signer run inside a Cvm-verified TEE")
  ]

  /** The cryptography and codecs the services call. */
  datatype Crypto = Crypto(
    sha256: bytes -> string,                  // `sha256_prefixed`
    utf8: string -> bytes,
    hex: bytes -> string,
    base64Url: bytes -> string,
    base64UrlDecode: string -> Option<bytes>,
    publicKey: bytes -> bytes,                // of a signing key
    validKey: bytes -> bool,                  // `VerifyingKey::from_bytes` accepts it
    sign: (bytes, bytes) -> bytes,            // key, message
    verify: (bytes, bytes, bytes) -> bool,    // public key, message, signature
    encodeEvent: ContestEvent -> bytes,
    decodeEvent: bytes -> Option<ContestEvent>,
    encodeManifest: ContestManifest -> bytes,
    decodeManifest: bytes -> Option<ContestManifest>)

  ghost predicate InjectiveHash(c: Crypto)
  {
    forall a: bytes, b: bytes :: c.sha256(a) == c.sha256(b) ==> a == b
  }

  /** Encodings round-trip and an honest signature verifies. */
  ghost predicate Sound(c: Crypto)
  {
    && (forall e: ContestEvent :: c.decodeEvent(c.encodeEvent(e)) == Some(e))
    && (forall m: ContestManifest :: c.decodeManifest(c.encodeManifest(m)) == Some(m))
    && (forall b: bytes :: c.base64UrlDecode(c.base64Url(b)) == Some(b))
    && (forall k: bytes :: |c.publicKey(k)| == 32 && c.validKey(c.publicKey(k)))
    && (forall k: bytes, m: bytes :: |c.sign(k, m)| == 64 && c.verify(c.publicKey(k), m, c.sign(k, m)))
  }

  // ------------------------------------------------------------------
  // Events and manifests
  // ------------------------------------------------------------------

  function EventFromCbor(c: Crypto, body: bytes): Option<ContestEvent>
  {
    match c.decodeEvent(body)
    case None => None
    case Some(e) => if e.version == EVENT_VERSION && e.profile == EVENT_PROFILE then Some(e) else None
  }

  function ManifestFromCbor(c: Crypto, body: bytes): Option<ContestManifest>
  {
    match c.decodeManifest(body)
    case None => None
    case Some(m) => if m.version == MANIFEST_VERSION && m.profile == MANIFEST_PROFILE then Some(m) else None
  }

  function EventHash(c: Crypto, e: ContestEvent): string { c.sha256(c.encodeEvent(e)) }

  function ManifestHash(c: Crypto, m: ContestManifest): string { c.sha256(c.encodeManifest(m)) }

  function SigningBytes(c: Crypto, e: ContestEvent): bytes { c.encodeEvent(e.(signature := "")) }

  function Sign(c: Crypto, e: ContestEvent, key: bytes): ContestEvent
  {
    e.(signature := c.base64Url(c.sign(key, SigningBytes(c, e))))
  }

  predicate VerifyEvent(c: Crypto, e: ContestEvent, publicKey: bytes)
  {
    match c.base64UrlDecode(e.signature)
    case None => false
    case Some(sig) => |sig| == 64 && c.verify(publicKey, SigningBytes(c, e), sig)
  }

  /** What a valid signature is: 64 bytes that verify for the event with its signature field blank. */
  ghost predicate SignedBy(c: Crypto, e: ContestEvent, publicKey: bytes)
  {
    exists sig :: c.base64UrlDecode(e.signature) == Some(sig) && |sig| == 64
               && c.verify(publicKey, c.encodeEvent(e.(signature := "")), sig)
  }

  lemma VerifiesExactly(c: Crypto, e: ContestEvent, publicKey: bytes)
    ensures VerifyEvent(c, e, publicKey) <==> SignedBy(c, e, publicKey)
  {
  }

  /** A signature that verifies for one message only binds the whole event: no
      other event verifies under the same key with the same signature. */
  lemma SignatureBindsEvent(c: Crypto, a: ContestEvent, b: ContestEvent, publicKey: bytes)
    requires Sound(c) && VerifyEvent(c, a, publicKey) && VerifyEvent(c, b, publicKey) && a.signature == b.signature
    requires forall m: bytes, m': bytes, sig: bytes ::
               && c.base64UrlDecode(a.signature) == Some(sig)
               && c.verify(publicKey, m, sig) && c.verify(publicKey, m', sig)
               ==> m == m'
    ensures a == b
  {
    var a', b' := a.(signature := ""), b.(signature := "");
    assert c.encodeEvent(a') == c.encodeEvent(b');
    assert c.decodeEvent(c.encodeEvent(a')) == Some(a') && c.decodeEvent(c.encodeEvent(b')) == Some(b');
    assert a == a'.(signature := a.signature) && b == b'.(signature := b.signature);
  }

  function JwkOf(c: Crypto, publicKey: bytes): PublicJwk
  {
    PublicJwk("OKP", "Ed25519", c.base64Url(publicKey))
  }

  function VerifyingKey(c: Crypto, jwk: PublicJwk): Option<bytes>
  {
    if jwk.kty != "OKP" || jwk.crv != "Ed25519" then None
    else match c.base64UrlDecode(jwk.x)
      case None => None
      case Some(b) => if |b| == 32 && c.validKey(b) then Some(b) else None
  }

  /** The key a manifest publishes: an Ed25519 key of 32 bytes that decodes. */
  ghost predicate Publishes(c: Crypto, jwk: PublicJwk, publicKey: bytes)
  {
    && jwk.kty == "OKP" && jwk.crv == "Ed25519"
    && c.base64UrlDecode(jwk.x) == Some(publicKey) && |publicKey| == 32 && c.validKey(publicKey)
  }

  lemma PublishesExactly(c: Crypto, jwk: PublicJwk, publicKey: bytes)
    ensures VerifyingKey(c, jwk) == Some(publicKey) <==> Publishes(c, jwk, publicKey)
  {
  }

  /** A body that decodes to an event, or to a manifest, of the known version and profile. */
  ghost predicate IsEvent(c: Crypto, body: bytes, e: ContestEvent)
  {
    c.decodeEvent(body) == Some(e) && e.version == 1 && e.profile == "https://cvm.dev/contest-event/v1"
  }

  ghost predicate IsManifest(c: Crypto, body: bytes, m: ContestManifest)
  {
    c.decodeManifest(body) == Some(m) && m.version == 1 && m.profile == "https://cvm.dev/llm-contest-manifest/v1"
  }

  lemma DecodersExactly(c: Crypto, body: bytes, e: ContestEvent, m: ContestManifest)
    ensures EventFromCbor(c, body) == Some(e) <==> IsEvent(c, body, e)
    ensures ManifestFromCbor(c, body) == Some(m) <==> IsManifest(c, body, m)
  {
  }

  /** The events with a given key; teams and sessions are two ways to key them. */
  function ByKey(key: ContestEvent -> string, id: string): ContestEvent -> bool { (e: ContestEvent) => key(e) == id }

  function TeamKey(): ContestEvent -> string { (e: ContestEvent) => e.teamId }

  function SessionKey(): ContestEvent -> string { (e: ContestEvent) => e.actor.agentSessionId }

  function OfTeam(team: string): ContestEvent -> bool { ByKey(TeamKey(), team) }

  function OfSession(session: string): ContestEvent -> bool { ByKey(SessionKey(), session) }

  // ------------------------------------------------------------------
  // Claims
  // ------------------------------------------------------------------

  function FindPath(paths: seq<PathSpec>, captureMethod: string, enforcement: string): (r: Option<PathSpec>)
    ensures r.Some? ==> r.value in paths && r.value.captureMethod == captureMethod && r.value.enforcement == enforcement
    ensures r.None? ==> forall p :: p in paths ==> p.captureMethod != captureMethod || p.enforcement != enforcement
  {
    if paths == [] then None
    else if paths[0].captureMethod == captureMethod && paths[0].enforcement == enforcement then Some(paths[0])
    else FindPath(paths[1..], captureMethod, enforcement)
  }

  function AttestedPath(captureMethod: string, assurance: string, enforcement: string): Option<PathSpec>
  {
    if assurance != "attested" then None
    else FindPath(REMOTE_ATTESTED_CAPTURE_PATHS, captureMethod, enforcement)
  }

  datatype VerifiedReceipt = VerifiedReceipt(
    verifierProfile: string, platform: string, valueX: string, platformMeasurement: string,
    quoteBindingHash: string, receiptHash: string, chainDepth: nat)

  function VerifyReceipt(c: Crypto, lib: EatLib, receipt: bytes, accepted: seq<string>,
                         verifierProfile: string): Result<VerifiedReceipt, RaError>
  {
    match lib.fromCbor(receipt)
    case Err(e) => Err(EatDecode(e))
    case Ok(eat) =>
      match VerifyEatChain(lib, eat, AcceptedPlatforms(accepted), eat.valueX, 0)
      case Err(e) => Err(e)
      case Ok(v) => Ok(VerifiedReceipt(
        verifierProfile, PlatformLabel(v.platform), "sha384:" + c.hex(eat.valueX), c.hex(v.measurement),
        "sha256:" + c.hex(v.binding), c.sha256(receipt), v.depth))
  }

  function StripValueXPrefix(s: string): string
  {
    if "sha384:" <= s then StripValueXPrefix(s[7..]) else s
  }

  function NormalizeValueX(s: string): string { AsciiLower(StripValueXPrefix(Trim(s))) }

  function Prefixes(n: nat): string { if n == 0 then [] else "sha384:" + Prefixes(n - 1) }

  predicate HexDigits(h: string) { forall c :: c in h ==> '0' <= c <= '9' || 'a' <= c <= 'f' }

  /** The same hex digits, in either case. */
  predicate SameDigits(d: string, h: string)
  {
    |d| == |h| && forall i :: 0 <= i < |h| ==>
      d[i] == h[i] || ('A' <= d[i] <= 'F' && d[i] as int - 'A' as int == h[i] as int - 'a' as int)
  }

  lemma {:induction false} PrefixesStrip(n: nat, d: string)
    requires !("sha384:" <= d)
    ensures StripValueXPrefix(Prefixes(n) + d) == d
  {
    if n == 0 {
      assert Prefixes(0) + d == d;
    } else {
      var s := Prefixes(n) + d;
      assert s == "sha384:" + (Prefixes(n - 1) + d);
      assert s[7..] == Prefixes(n - 1) + d;
      PrefixesStrip(n - 1, d);
    }
  }

  lemma {:induction false} StripIsPrefixes(s: string) returns (n: nat)
    ensures s == Prefixes(n) + StripValueXPrefix(s) && !("sha384:" <= StripValueXPrefix(s))
  {
    n := 0;
    if "sha384:" <= s {
      var m := StripIsPrefixes(s[7..]);
      n := m + 1;
      assert s == "sha384:" + s[7..];
    }
  }

  /** What a Value X in text matches: optional whitespace around any number of
      prefixes and the hex digits in either case, and nothing else. */
  ghost predicate WritesValueX(s: string, h: string)
  {
    exists a, n, d, z :: s == a + (Prefixes(n) + d) + z && AllSpace(a) && AllSpace(z) && SameDigits(d, h)
  }

  lemma DigitsAreNoPrefix(d: string, h: string)
    requires HexDigits(h) && SameDigits(d, h)
    ensures !("sha384:" <= d) && AsciiLower(d) == h && forall c :: c in d ==> !IsWhitespace(c)
  {
    forall i | 0 <= i < |d| ensures AsciiLower(d)[i] == h[i] && !IsWhitespace(d[i]) && d[i] != 's' {
      assert h[i] in h;
    }
    assert "sha384:"[0] == 's';
  }

  lemma {:induction false} PrefixesHaveNoEdge(n: nat, d: string)
    requires forall c :: c in d ==> !IsWhitespace(c)
    ensures forall c :: c in Prefixes(n) + d ==> !IsWhitespace(c)
  {
    if n > 0 { PrefixesHaveNoEdge(n - 1, d); }
  }

  lemma ValueXMatchExactly(s: string, h: string)
    requires HexDigits(h)
    ensures NormalizeValueX(s) == NormalizeValueX("sha384:" + h) <==> WritesValueX(s, h)
  {
    assert SameDigits(h, h);
    DigitsAreNoPrefix(h, h);
    assert Prefixes(1) + h == "sha384:" + h;
    PrefixesHaveNoEdge(1, h);
    TrimUnique([], "sha384:" + h, []);
    assert [] + ("sha384:" + h) + [] == "sha384:" + h;
    PrefixesStrip(1, h);
    assert NormalizeValueX("sha384:" + h) == h;
    if NormalizeValueX(s) == h { NormalWrites(s, h); }
    if WritesValueX(s, h) {
      var a, n, d, z :| s == a + (Prefixes(n) + d) + z && AllSpace(a) && AllSpace(z) && SameDigits(d, h);
      DigitsAreNoPrefix(d, h);
      PrefixesHaveNoEdge(n, d);
      TrimUnique(a, Prefixes(n) + d, z);
      PrefixesStrip(n, d);
    }
  }

  lemma NormalWrites(s: string, h: string)
    requires HexDigits(h) && NormalizeValueX(s) == h
    ensures WritesValueX(s, h)
  {
    var a, z := TrimSplits(s);
    var n := StripIsPrefixes(Trim(s));
    var d := StripValueXPrefix(Trim(s));
    forall i | 0 <= i < |h|
      ensures d[i] == h[i] || ('A' <= d[i] <= 'F' && d[i] as int - 'A' as int == h[i] as int - 'a' as int)
    {
      assert h[i] == AsciiLower(d)[i] && h[i] in h;
    }
    assert SameDigits(d, h);
  }

  function BuildClaim(c: Crypto, lib: EatLib, manifest: ContestManifest, manifestHash: string, receipt: bytes,
                      captureMethod: string, assurance: string, enforcement: string): Result<Claim, RaError>
  {
    match AttestedPath(captureMethod, assurance, enforcement)
    case None => Err(UnsupportedCapturePath)
    case Some(spec) =>
      if captureMethod !in manifest.captureMethods then Err(CaptureMethodNotAdvertised)
      else match VerifyReceipt(c, lib, receipt,
                               manifest.trustPolicy.acceptedTeePlatforms, manifest.trustPolicy.verifierProfile)
        case Err(e) => Err(e)
        case Ok(v) =>
          if manifest.cvmReceiptHash != v.receiptHash then Err(ReceiptHashMismatch)
          else if NormalizeValueX(manifest.valueX) != NormalizeValueX(v.valueX) then Err(ValueXMismatch)
          else Ok(Claim(CAPTURE_RA_PROFILE, captureMethod, assurance, enforcement, spec.requirement,
                        v.verifierProfile, v.platform, v.valueX, v.platformMeasurement, v.quoteBindingHash,
                        v.receiptHash, manifestHash, c.sha256(c.utf8(manifest.eventSigningJwk.x)), v.chainDepth))
  }

  function DepthString(n: nat): string
  {
    if n < 10 then ["0123456789"[n]] else DepthString(n / 10) + ["0123456789"[n % 10]]
  }

  /** The evidence entries a claim contributes to an event. */
  function RaEvidence(claim: Claim): map<string, string>
  {
    map["ra_profile" := claim.profile, "ra_capture_method" := claim.captureMethod, "ra_assurance" := claim.assurance,
        "ra_enforcement" := claim.enforcement, "ra_requirement" := claim.requirement,
        "ra_verifier_profile" := claim.verifierProfile, "ra_platform" := claim.platform, "ra_value_x" := claim.valueX,
        "ra_platform_measurement" := claim.platformMeasurement, "ra_quote_binding_hash" := claim.quoteBindingHash,
        "ra_cvm_receipt_hash" := claim.cvmReceiptHash, "ra_manifest_hash" := claim.manifestHash,
        "ra_event_signing_key_hash" := claim.eventSigningKeyHash, "ra_chain_depth" := DepthString(claim.chainDepth)]
  }

  /** `insert_capture_ra_evidence`, one insert after another. */
  method InsertRaEvidence(evidence: map<string, string>, claim: Claim) returns (out: map<string, string>)
    ensures out == evidence + RaEvidence(claim)
  {
    out := evidence["ra_profile" := claim.profile];
    out := out["ra_capture_method" := claim.captureMethod];
    out := out["ra_assurance" := claim.assurance];
    out := out["ra_enforcement" := claim.enforcement];
    out := out["ra_requirement" := claim.requirement];
    out := out["ra_verifier_profile" := claim.verifierProfile];
    out := out["ra_platform" := claim.platform];
    out := out["ra_value_x" := claim.valueX];
    out := out["ra_platform_measurement" := claim.platformMeasurement];
    out := out["ra_quote_binding_hash" := claim.quoteBindingHash];
    out := out["ra_cvm_receipt_hash" := claim.cvmReceiptHash];
    out := out["ra_manifest_hash" := claim.manifestHash];
    out := out["ra_event_signing_key_hash" := claim.eventSigningKeyHash];
    out := out["ra_chain_depth" := DepthString(claim.chainDepth)];
  }

  function DepthValue(s: string): int
  {
    if s == [] then 0 else DepthValue(s[..|s| - 1]) * 10 + (s[|s| - 1] as int - '0' as int)
  }

  lemma {:induction false} DepthReadsBack(n: nat)
    ensures DepthString(n) != [] && DepthValue(DepthString(n)) == n
    ensures forall c :: c in DepthString(n) ==> '0' <= c <= '9'
  {
    var digit := "0123456789"[n % 10];
    assert digit as int == '0' as int + n % 10;
    if n < 10 {
      assert DepthString(n) == [digit];
      assert DepthValue([digit]) == DepthValue([]) * 10 + n;
    } else {
      DepthReadsBack(n / 10);
      var s := DepthString(n);
      assert s == DepthString(n / 10) + [digit];
      assert s[..|s| - 1] == DepthString(n / 10);
    }
  }

  /** The claim an event's evidence carries, read entry by entry. */
  function ClaimIn(evidence: map<string, string>): Claim
    requires DepthValue(GetOr(evidence, "ra_chain_depth", "")) >= 0
  {
    Claim(GetOr(evidence, "ra_profile", ""), GetOr(evidence, "ra_capture_method", ""),
          GetOr(evidence, "ra_assurance", ""), GetOr(evidence, "ra_enforcement", ""),
          GetOr(evidence, "ra_requirement", ""), GetOr(evidence, "ra_verifier_profile", ""),
          GetOr(evidence, "ra_platform", ""), GetOr(evidence, "ra_value_x", ""),
          GetOr(evidence, "ra_platform_measurement", ""), GetOr(evidence, "ra_quote_binding_hash", ""),
          GetOr(evidence, "ra_cvm_receipt_hash", ""), GetOr(evidence, "ra_manifest_hash", ""),
          GetOr(evidence, "ra_event_signing_key_hash", ""), DepthValue(GetOr(evidence, "ra_chain_depth", "")))
  }

  lemma EvidenceEntriesFirst(claim: Claim)
    ensures var ra := RaEvidence(claim);
            && Holds(ra, "ra_profile", claim.profile) && Holds(ra, "ra_capture_method", claim.captureMethod)
            && Holds(ra, "ra_assurance", claim.assurance) && Holds(ra, "ra_enforcement", claim.enforcement)
            && Holds(ra, "ra_requirement", claim.requirement)
  {
  }

  lemma EvidenceEntriesSecond(claim: Claim)
    ensures var ra := RaEvidence(claim);
            && Holds(ra, "ra_verifier_profile", claim.verifierProfile) && Holds(ra, "ra_platform", claim.platform)
            && Holds(ra, "ra_value_x", claim.valueX)
            && Holds(ra, "ra_platform_measurement", claim.platformMeasurement)
            && Holds(ra, "ra_quote_binding_hash", claim.quoteBindingHash)
  {
  }

  lemma EvidenceEntriesThird(claim: Claim)
    ensures var ra := RaEvidence(claim);
            && Holds(ra, "ra_cvm_receipt_hash", claim.cvmReceiptHash)
            && Holds(ra, "ra_manifest_hash", claim.manifestHash)
            && Holds(ra, "ra_event_signing_key_hash", claim.eventSigningKeyHash)
            && Holds(ra, "ra_chain_depth", DepthString(claim.chainDepth))
  {
  }

  lemma EvidenceNames(claim: Claim, k: string)
    requires k in RaEvidence(claim)
    ensures "ra_" <= k
  {
  }

  /** The whole claim can be read back from the evidence, whatever was there
      before, and entries under other names stay. */
  lemma EvidenceReadsBack(evidence: map<string, string>, claim: Claim)
    ensures var out := evidence + RaEvidence(claim);
            && DepthValue(GetOr(out, "ra_chain_depth", "")) >= 0 && ClaimIn(out) == claim
            && (forall k :: !("ra_" <= k) ==> (k in evidence <==> k in out))
            && (forall k :: !("ra_" <= k) && k in evidence ==> out[k] == evidence[k])
  {
    DepthReadsBack(claim.chainDepth);
    EvidenceEntriesFirst(claim);
    EvidenceEntriesSecond(claim);
    EvidenceEntriesThird(claim);
    forall k | k in RaEvidence(claim) ensures "ra_" <= k { EvidenceNames(claim, k); }
  }

  predicate Holds(evidence: map<string, string>, key: string, value: string)
  {
    key in evidence && evidence[key] == value
  }

  predicate EventMatchesClaim(e: ContestEvent, claim: Claim)
  {
    && e.captureMethod == claim.captureMethod
    && e.assurance == claim.assurance
    && e.manifestHash == claim.manifestHash
    && Holds(e.evidence, "enforcement_mode", claim.enforcement)
    && Holds(e.evidence, "ra_profile", claim.profile)
    && Holds(e.evidence, "ra_cvm_receipt_hash", claim.cvmReceiptHash)
    && Holds(e.evidence, "ra_event_signing_key_hash", claim.eventSigningKeyHash)
  }

  /** What a claim certifies: a listed path the manifest advertises, and a
      receipt with the manifest's hash and Value X that decodes to `stages`,
      a chain of at most 17 good stages. */
  ghost predicate ClaimGrounds(c: Crypto, lib: EatLib, manifest: ContestManifest, receipt: bytes,
                               captureMethod: string, assurance: string, enforcement: string, stages: seq<Eat>)
  {
    && assurance == "attested" && captureMethod in manifest.captureMethods
    && (exists p :: p in REMOTE_ATTESTED_CAPTURE_PATHS && p.captureMethod == captureMethod
          && p.enforcement == enforcement)
    && c.sha256(receipt) == manifest.cvmReceiptHash
    && lib.fromCbor(receipt).Ok?
    && var leaf := lib.fromCbor(receipt).value;
    && |stages| <= 17 && ChainFrom(lib, leaf, stages)
    && AllStagesOk(lib, stages, AcceptedPlatforms(manifest.trustPolicy.acceptedTeePlatforms), leaf.valueX)
    && NormalizeValueX(manifest.valueX) == NormalizeValueX("sha384:" + c.hex(leaf.valueX))
  }

  /** The claim names the path it was built for, with that path's requirement,
      and the manifest's hash, profile and key. */
  ghost predicate ClaimNames(c: Crypto, claim: Claim, manifest: ContestManifest, hash: string,
                             captureMethod: string, assurance: string, enforcement: string)
  {
    && claim.profile == CAPTURE_RA_PROFILE
    && claim.captureMethod == captureMethod && claim.assurance == assurance && claim.enforcement == enforcement
    && PathSpec(captureMethod, enforcement, claim.requirement) in REMOTE_ATTESTED_CAPTURE_PATHS
    && claim.manifestHash == hash && claim.verifierProfile == manifest.trustPolicy.verifierProfile
    && claim.cvmReceiptHash == manifest.cvmReceiptHash
    && claim.eventSigningKeyHash == c.sha256(c.utf8(manifest.eventSigningJwk.x))
  }

  /** The claim repeats the leaf's verified facts and counts the stages. */
  ghost predicate ClaimReports(c: Crypto, lib: EatLib, claim: Claim, leaf: Eat, stages: seq<Eat>)
  {
    exists v: Verified :: LeafFacts(lib, leaf, v)
      && claim.platform == PlatformLabel(v.platform) && claim.platformMeasurement == c.hex(v.measurement)
      && claim.quoteBindingHash == "sha256:" + c.hex(v.binding) && claim.valueX == "sha384:" + c.hex(leaf.valueX)
      && claim.chainDepth == |stages|
  }

  lemma ClaimHasGrounds(c: Crypto, lib: EatLib, manifest: ContestManifest, hash: string, receipt: bytes,
                        captureMethod: string, assurance: string, enforcement: string) returns (stages: seq<Eat>)
    requires BuildClaim(c, lib, manifest, hash, receipt, captureMethod, assurance, enforcement).Ok?
    ensures ClaimGrounds(c, lib, manifest, receipt, captureMethod, assurance, enforcement, stages)
    ensures var claim := BuildClaim(c, lib, manifest, hash, receipt, captureMethod, assurance, enforcement).value;
            && ClaimReports(c, lib, claim, lib.fromCbor(receipt).value, stages)
            && ClaimNames(c, claim, manifest, hash, captureMethod, assurance, enforcement)
  {
    var leaf := lib.fromCbor(receipt).value;
    var accepted := AcceptedPlatforms(manifest.trustPolicy.acceptedTeePlatforms);
    stages := AcceptedChain(lib, leaf, accepted, leaf.valueX, 0);
    var v := VerifyEatChain(lib, leaf, accepted, leaf.valueX, 0).value;
    assert LeafFacts(lib, leaf, v);
  }

  lemma GroundsMakeClaim(c: Crypto, lib: EatLib, manifest: ContestManifest, hash: string, receipt: bytes,
                         captureMethod: string, assurance: string, enforcement: string, stages: seq<Eat>)
    requires ClaimGrounds(c, lib, manifest, receipt, captureMethod, assurance, enforcement, stages)
    ensures BuildClaim(c, lib, manifest, hash, receipt, captureMethod, assurance, enforcement).Ok?
  {
    var leaf := lib.fromCbor(receipt).value;
    GoodChainAccepted(lib, leaf, stages, AcceptedPlatforms(manifest.trustPolicy.acceptedTeePlatforms), leaf.valueX, 0);
    assert AttestedPath(captureMethod, assurance, enforcement).Some?;
  }

  /** The claim builder succeeds exactly when there are grounds, and then names and reports them. */
  lemma ClaimBuiltExactly(c: Crypto, lib: EatLib, manifest: ContestManifest, hash: string, receipt: bytes,
                          captureMethod: string, assurance: string, enforcement: string)
    ensures var r := BuildClaim(c, lib, manifest, hash, receipt, captureMethod, assurance, enforcement);
            && (r.Ok? <==> exists stages ::
                  ClaimGrounds(c, lib, manifest, receipt, captureMethod, assurance, enforcement, stages))
            && (r.Ok? ==> ClaimNames(c, r.value, manifest, hash, captureMethod, assurance, enforcement))
            && (forall stages ::
                  r.Ok? && ClaimGrounds(c, lib, manifest, receipt, captureMethod, assurance, enforcement, stages) ==>
                    ClaimReports(c, lib, r.value, lib.fromCbor(receipt).value, stages))
  {
    if BuildClaim(c, lib, manifest, hash, receipt, captureMethod, assurance, enforcement).Ok? {
      var found := ClaimHasGrounds(c, lib, manifest, hash, receipt, captureMethod, assurance, enforcement);
      forall stages | ClaimGrounds(c, lib, manifest, receipt, captureMethod, assurance, enforcement, stages)
        ensures stages == found
      {
        ChainUnique(lib, lib.fromCbor(receipt).value, stages, found);
      }
    }
    if stages :| ClaimGrounds(c, lib, manifest, receipt, captureMethod, assurance, enforcement, stages) {
      GroundsMakeClaim(c, lib, manifest, hash, receipt, captureMethod, assurance, enforcement, stages);
    }
  }

  /** The receipt decodes to a chain of at most 17 stages good under the manifest's policy. */
  ghost predicate ReceiptVerifies(lib: EatLib, manifest: ContestManifest, receipt: bytes)
  {
    && lib.fromCbor(receipt).Ok?
    && var leaf := lib.fromCbor(receipt).value;
       exists stages :: |stages| <= 17 && ChainFrom(lib, leaf, stages)
         && AllStagesOk(lib, stages, AcceptedPlatforms(manifest.trustPolicy.acceptedTeePlatforms), leaf.valueX)
  }

  ghost predicate ListedPath(captureMethod: string, assurance: string, enforcement: string)
  {
    && assurance == "attested"
    && exists p :: p in REMOTE_ATTESTED_CAPTURE_PATHS
                && p.captureMethod == captureMethod && p.enforcement == enforcement
  }
  /** The refusals that come from the claim builder and not from the receipt. */
  predicate BuildersOwn(e: RaError)
  {
    e in {UnsupportedCapturePath, CaptureMethodNotAdvertised, ReceiptHashMismatch, ValueXMismatch}
  }

  lemma ReceiptVerifiesExactly(c: Crypto, lib: EatLib, manifest: ContestManifest, receipt: bytes)
    ensures var policy := manifest.trustPolicy;
            var r := VerifyReceipt(c, lib, receipt, policy.acceptedTeePlatforms, policy.verifierProfile);
            && (r.Ok? <==> ReceiptVerifies(lib, manifest, receipt))
            && (r.Ok? ==> r.value.receiptHash == c.sha256(receipt))
            && (r.Ok? ==> r.value.valueX == "sha384:" + c.hex(lib.fromCbor(receipt).value.valueX))
            && (r.Err? ==> !BuildersOwn(r.error))
  {
    if lib.fromCbor(receipt).Ok? {
      var leaf, accepted := lib.fromCbor(receipt).value, AcceptedPlatforms(manifest.trustPolicy.acceptedTeePlatforms);
      RecursiveVerifierCharacterised(lib, leaf, accepted);
      ChainErrors(lib, leaf, accepted, leaf.valueX, 0);
    }
  }

  lemma {:induction false} ChainErrors(lib: EatLib, eat: Eat, accepted: set<Platform>, leafX: bytes, depth: nat)
    ensures var r := VerifyEatChain(lib, eat, accepted, leafX, depth);
            r.Err? ==> !BuildersOwn(r.error)
    decreases if depth > 16 then 0 else 17 - depth
  {
    if depth <= 16 && lib.decodePrevious(eat).Ok? && lib.decodePrevious(eat).value.Some? {
      ChainErrors(lib, lib.decodePrevious(eat).value.value, accepted, leafX, depth + 1);
    }
  }

  /** What each of the builder's own refusals means, exactly and in this order. */
  lemma ClaimRefusedExactly(c: Crypto, lib: EatLib, manifest: ContestManifest, hash: string, receipt: bytes,
                            captureMethod: string, assurance: string, enforcement: string)
    ensures var r := BuildClaim(c, lib, manifest, hash, receipt, captureMethod, assurance, enforcement);
            var listed := ListedPath(captureMethod, assurance, enforcement);
            var advertised := listed && captureMethod in manifest.captureMethods;
            var verified := advertised && ReceiptVerifies(lib, manifest, receipt);
            var named := verified && c.sha256(receipt) == manifest.cvmReceiptHash;
            && (r == Err(UnsupportedCapturePath) <==> !listed)
            && (r == Err(CaptureMethodNotAdvertised) <==> listed && !advertised)
            && (r == Err(ReceiptHashMismatch) <==> verified && !named)
            && (r == Err(ValueXMismatch) <==>
                  && named
                  && NormalizeValueX(manifest.valueX)
                     != NormalizeValueX("sha384:" + c.hex(lib.fromCbor(receipt).value.valueX)))
  {
    ReceiptVerifiesExactly(c, lib, manifest, receipt);
    assert AttestedPath(captureMethod, assurance, enforcement).Some?
      <==> ListedPath(captureMethod, assurance, enforcement);
  }

  // ------------------------------------------------------------------
  // The service's validation of an "attested" event
  // ------------------------------------------------------------------

  /** What the two fetches of the validation returned; `None` is a transport or status error. */
  datatype Fetched = Fetched(manifest: Option<bytes>, receipt: Option<bytes>)

  predicate ValidateAttested(c: Crypto, lib: EatLib, e: ContestEvent, fetched: Fetched)
  {
    e.assurance == "attested" ==>
      && "enforcement_mode" in e.evidence
      && fetched.manifest.Some?
      && ManifestFromCbor(c, fetched.manifest.value).Some?
      && var manifest := ManifestFromCbor(c, fetched.manifest.value).value;
         var hash := ManifestHash(c, manifest);
      && e.manifestHash == hash
      && VerifyingKey(c, manifest.eventSigningJwk).Some?
      && VerifyEvent(c, e, VerifyingKey(c, manifest.eventSigningJwk).value)
      && fetched.receipt.Some?
      && var claim := BuildClaim(c, lib, manifest, hash, fetched.receipt.value,
                                 e.captureMethod, e.assurance, e.evidence["enforcement_mode"]);
         claim.Ok? && EventMatchesClaim(e, claim.value)
  }

  /** What "attested" is worth, without reference to the validator: the event
      names the manifest by hash and verifies under its key; the manifest
      advertises the method, the path is listed, and the receipt hashes to the
      manifest's value and decodes to `stages`, a chain good at every stage. */
  ghost predicate AttestedBy(c: Crypto, lib: EatLib, e: ContestEvent, manifest: ContestManifest, receipt: bytes,
                             stages: seq<Eat>)
  {
    && e.manifestHash == c.sha256(c.encodeManifest(manifest))
    && (exists key :: Publishes(c, manifest.eventSigningJwk, key) && SignedBy(c, e, key))
    && "enforcement_mode" in e.evidence
    && ClaimGrounds(c, lib, manifest, receipt, e.captureMethod, e.assurance, e.evidence["enforcement_mode"], stages)
    && Holds(e.evidence, "ra_profile", CAPTURE_RA_PROFILE)
    && Holds(e.evidence, "ra_cvm_receipt_hash", c.sha256(receipt))
    && Holds(e.evidence, "ra_event_signing_key_hash", c.sha256(c.utf8(manifest.eventSigningJwk.x)))
  }

  /** Passing the validation with assurance "attested" means being attested by
      the very manifest and receipt that were fetched. */
  lemma ValidationIsSound(c: Crypto, lib: EatLib, e: ContestEvent, fetched: Fetched)
    returns (manifest: ContestManifest, stages: seq<Eat>)
    requires e.assurance == "attested" && ValidateAttested(c, lib, e, fetched)
    ensures fetched.manifest.Some? && IsManifest(c, fetched.manifest.value, manifest) && fetched.receipt.Some?
    ensures AttestedBy(c, lib, e, manifest, fetched.receipt.value, stages)
  {
    manifest := ManifestFromCbor(c, fetched.manifest.value).value;
    var key := VerifyingKey(c, manifest.eventSigningJwk).value;
    VerifiesExactly(c, e, key);
    assert Publishes(c, manifest.eventSigningJwk, key) && SignedBy(c, e, key);
    stages := ClaimHasGrounds(c, lib, manifest, ManifestHash(c, manifest), fetched.receipt.value,
                              e.captureMethod, e.assurance, e.evidence["enforcement_mode"]);
  }

  lemma AttestedMatchesClaim(c: Crypto, lib: EatLib, e: ContestEvent, manifest: ContestManifest, receipt: bytes,
                             stages: seq<Eat>)
    requires AttestedBy(c, lib, e, manifest, receipt, stages)
    ensures var r := BuildClaim(c, lib, manifest, ManifestHash(c, manifest), receipt,
                                e.captureMethod, e.assurance, e.evidence["enforcement_mode"]);
            r.Ok? && EventMatchesClaim(e, r.value)
  {
    GroundsMakeClaim(c, lib, manifest, ManifestHash(c, manifest), receipt,
                     e.captureMethod, e.assurance, e.evidence["enforcement_mode"], stages);
    var _ := ClaimHasGrounds(c, lib, manifest, ManifestHash(c, manifest), receipt,
                             e.captureMethod, e.assurance, e.evidence["enforcement_mode"]);
  }

  lemma OwnManifestDecodes(c: Crypto, manifest: ContestManifest)
    requires Sound(c) && manifest.version == MANIFEST_VERSION && manifest.profile == MANIFEST_PROFILE
    ensures ManifestFromCbor(c, c.encodeManifest(manifest)) == Some(manifest)
  {
    assert c.decodeManifest(c.encodeManifest(manifest)) == Some(manifest);
  }

  /** And conversely: an attested event passes as soon as the two fetches
      return the encoded manifest and the receipt that attest it. */
  lemma ValidationIsComplete(c: Crypto, lib: EatLib, e: ContestEvent, manifest: ContestManifest, receipt: bytes,
                             stages: seq<Eat>)
    requires Sound(c) && manifest.version == MANIFEST_VERSION && manifest.profile == MANIFEST_PROFILE
    requires AttestedBy(c, lib, e, manifest, receipt, stages)
    ensures ValidateAttested(c, lib, e, Fetched(Some(c.encodeManifest(manifest)), Some(receipt)))
  {
    OwnManifestDecodes(c, manifest);
    var key :| Publishes(c, manifest.eventSigningJwk, key) && SignedBy(c, e, key);
    PublishesExactly(c, manifest.eventSigningJwk, key);
    VerifiesExactly(c, e, key);
    AttestedMatchesClaim(c, lib, e, manifest, receipt, stages);
  }
}
