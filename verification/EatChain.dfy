/** Verification of nested EAT tokens (RFC 9711).

    Two walkers over the same data: the recursive verifier behind the capture
    claim and the iterative one of `cvm check`.  Token decoding, binding and
    quote verification are external, so they are the functions of `EatLib`;
    nothing is assumed about them, and in particular a token may chain forever. */
module EatChain {
  import opened Common

  datatype Platform = Nitro | SevSnp | Tdx

  datatype Eat = Eat(
    valueX: bytes,
    platform: byte,
    platformMeasurement: bytes,
    platformQuote: bytes,
    tlsSpkiHash: bytes,
    previousAttestation: bytes)

  datatype EatLib = EatLib(
    fromCbor: bytes -> Result<Eat, string>,
    hasPrevious: Eat -> bool,
    decodePrevious: Eat -> Result<Option<Eat>, string>,
    platformEnum: byte -> Option<Platform>,
    bindingBytes: Eat -> bytes,
    verifyQuote: (Platform, bytes, bytes) -> Result<seq<(string, bytes)>, string>)

  datatype RaError =
    | UnsupportedCapturePath
    | EatDecode(message: string)
    | UnknownPlatform(discriminant: byte)
    | PlatformNotAccepted(platform: Platform)
    | EmptyQuote
    | QuoteVerify(message: string)
    | ChainValueXDrift
    | ChainTooDeep(cap: nat)
    | ReceiptHashMismatch
    | ValueXMismatch
    | CaptureMethodNotAdvertised

  /** What the verifier reports: the leaf's facts and the number of stages. */
  datatype Verified = Verified(platform: Platform, measurement: bytes, binding: bytes, depth: nat)

  function PlatformLabel(p: Platform): string
  {
    match p
    case Nitro => "nitro"
    case SevSnp => "sev-snp"
    case Tdx => "tdx"
  }

  function Dashed(s: string): string
  {
    seq(|s|, i requires 0 <= i < |s| => if s[i] == '_' then '-' else s[i])
  }

  function NormalizePlatformLabel(value: string): string
  {
    var n := Dashed(AsciiLower(Trim(value)));
    if n == "aws-nitro" then "nitro"
    else if n in {"snp", "sevsnp", "amd-sev-snp"} then "sev-snp"
    else n
  }

  predicate PlatformIsAccepted(p: Platform, accepted: seq<string>)
  {
    exists i :: 0 <= i < |accepted| && NormalizePlatformLabel(accepted[i]) == NormalizePlatformLabel(PlatformLabel(p))
  }

  /** The platforms a manifest's list of labels admits; the verifier consults the list only through this set. */
  function AcceptedPlatforms(labels: seq<string>): set<Platform>
  {
    set p | p in {Nitro, SevSnp, Tdx} && PlatformIsAccepted(p, labels)
  }

  lemma LabelsAreNormal(p: Platform)
    ensures NormalizePlatformLabel(PlatformLabel(p)) == PlatformLabel(p)
  {
    var s := PlatformLabel(p);
    assert Trim(s) == s;
    assert AsciiLower(s) == s && Dashed(s) == s;
  }

  /** A platform's own label admits that platform and no other. */
  lemma OwnLabelAdmits(p: Platform)
    ensures AcceptedPlatforms([PlatformLabel(p)]) == {p}
  {
    LabelsAreNormal(Nitro);
    LabelsAreNormal(SevSnp);
    LabelsAreNormal(Tdx);
    var labels := [PlatformLabel(p)];
    forall q: Platform ensures q in AcceptedPlatforms(labels) <==> q == p {
      assert PlatformIsAccepted(q, labels) <==> NormalizePlatformLabel(labels[0]) == PlatformLabel(q);
      assert PlatformLabel(q)[0] == PlatformLabel(p)[0] <==> q == p;
    }
  }

  /** The names a manifest may use for a platform. */
  predicate Names(name: string, p: Platform)
  {
    match p
    case Nitro => name == "nitro" || name == "aws-nitro"
    case SevSnp => name == "sev-snp" || name == "snp" || name == "sevsnp" || name == "amd-sev-snp"
    case Tdx => name == "tdx"
  }

  /** `t` spells `name`: in either case, and with underscores for dashes if it likes. */
  predicate Spells(t: string, name: string)
  {
    |t| == |name| && forall i :: 0 <= i < |name| ==>
      || t[i] == name[i]
      || ('A' <= t[i] <= 'Z' && t[i] as int - 'A' as int == name[i] as int - 'a' as int)
      || (t[i] == '_' && name[i] == '-')
  }

  /** The names are in lower case and have no underscores. */
  lemma NamesArePlain(name: string, p: Platform)
    requires Names(name, p)
    ensures forall i :: 0 <= i < |name| ==> name[i] != '_' && !('A' <= name[i] <= 'Z')
  {
  }

  lemma SpellsExactly(t: string, name: string, p: Platform)
    requires Names(name, p)
    ensures Dashed(AsciiLower(t)) == name <==> Spells(t, name)
  {
    NamesArePlain(name, p);
    var n := Dashed(AsciiLower(t));
    if n == name {
      forall i | 0 <= i < |name|
        ensures || t[i] == name[i]
                || ('A' <= t[i] <= 'Z' && t[i] as int - 'A' as int == name[i] as int - 'a' as int)
                || (t[i] == '_' && name[i] == '-')
      {
        assert n[i] == name[i];
      }
    }
  }

  /** A platform is admitted exactly when some label, but for whitespace around it, spells one of its names. */
  lemma AdmittedExactly(labels: seq<string>, p: Platform)
    ensures p in AcceptedPlatforms(labels)
       <==> exists i, name :: 0 <= i < |labels| && Names(name, p) && Spells(Trim(labels[i]), name)
  {
    LabelsAreNormal(p);
    forall i | 0 <= i < |labels|
      ensures NormalizePlatformLabel(labels[i]) == NormalizePlatformLabel(PlatformLabel(p))
         <==> exists name :: Names(name, p) && Spells(Trim(labels[i]), name)
    {
      LabelNames(labels[i], p);
    }
  }

  lemma LabelNames(text: string, p: Platform)
    ensures NormalizePlatformLabel(text) == PlatformLabel(p)
       <==> exists name :: Names(name, p) && Spells(Trim(text), name)
  {
    var t := Trim(text);
    forall name | Names(name, p) ensures Dashed(AsciiLower(t)) == name <==> Spells(t, name) {
      SpellsExactly(t, name, p);
    }
    assert NormalizePlatformLabel(text) == PlatformLabel(p) <==> Names(Dashed(AsciiLower(t)), p);
  }

  function MeasurementOf(eat: Eat, measurements: seq<(string, bytes)>): bytes
  {
    if measurements != [] && measurements[0].1 != [] then measurements[0].1 else eat.platformMeasurement
  }

  /** The checks on one stage, up to and including its quote. */
  function CheckStage(lib: EatLib, eat: Eat, accepted: set<Platform>, leafX: bytes): Result<Verified, RaError>
  {
    if eat.valueX != leafX then Err(ChainValueXDrift)
    else match lib.platformEnum(eat.platform)
      case None => Err(UnknownPlatform(eat.platform))
      case Some(platform) =>
        if platform !in accepted then Err(PlatformNotAccepted(platform))
        else if eat.platformQuote == [] then Err(EmptyQuote)
        else
          var binding := lib.bindingBytes(eat);
          match lib.verifyQuote(platform, eat.platformQuote, binding)
          case Err(e) => Err(QuoteVerify(e))
          case Ok(measurements) => Ok(Verified(platform, MeasurementOf(eat, measurements), binding, 1))
  }

  /** The recursive verifier.  Only the depth cap bounds the recursion. */
  function VerifyEatChain(lib: EatLib, eat: Eat, accepted: set<Platform>, leafX: bytes,
                          depth: nat): Result<Verified, RaError>
    decreases if depth > 16 then 0 else 17 - depth
  {
    if depth > 16 then Err(ChainTooDeep(16))
    else match CheckStage(lib, eat, accepted, leafX)
      case Err(e) => Err(e)
      case Ok(stage) =>
        match lib.decodePrevious(eat)
        case Err(e) => Err(EatDecode(e))
        case Ok(None) => Ok(stage.(depth := depth + 1))
        case Ok(Some(previous)) =>
          match VerifyEatChain(lib, previous, accepted, leafX, depth + 1)
          case Err(e) => Err(e)
          case Ok(v) => Ok(stage.(depth := v.depth))
  }

  // ------------------------------------------------------------------
  // Reference: what a chain is and what makes a stage good
  // ------------------------------------------------------------------

  /** `stages` starts at `eat` and every stage decodes to the next. */
  ghost predicate PathFrom(lib: EatLib, eat: Eat, stages: seq<Eat>)
    decreases |stages|
  {
    && stages != [] && stages[0] == eat
    && (|stages| > 1 ==>
          lib.decodePrevious(eat) == Ok(Some(stages[1])) && PathFrom(lib, stages[1], stages[1..]))
  }

  /** `stages` is the whole decoded chain of `eat`: a path whose last stage has no previous one. */
  ghost predicate ChainFrom(lib: EatLib, eat: Eat, stages: seq<Eat>)
  {
    PathFrom(lib, eat, stages) && lib.decodePrevious(stages[|stages| - 1]) == Ok(None)
  }

  /** The quote of a stage, of a known platform, verifies against the stage's own binding. */
  ghost predicate QuoteOk(lib: EatLib, stage: Eat)
  {
    && lib.platformEnum(stage.platform).Some?
    && lib.verifyQuote(lib.platformEnum(stage.platform).value, stage.platformQuote, lib.bindingBytes(stage)).Ok?
  }

  /** What only the recursive verifier asks on top: an accepted platform and a quote that is there. */
  ghost predicate PolicyOk(lib: EatLib, stage: Eat, accepted: set<Platform>)
  {
    && stage.platformQuote != []
    && (lib.platformEnum(stage.platform).Some? ==> lib.platformEnum(stage.platform).value in accepted)
  }

  ghost predicate StageOk(lib: EatLib, stage: Eat, accepted: set<Platform>, leafX: bytes)
  {
    stage.valueX == leafX && QuoteOk(lib, stage) && PolicyOk(lib, stage, accepted)
  }

  ghost predicate AllStagesOk(lib: EatLib, stages: seq<Eat>, accepted: set<Platform>, leafX: bytes)
  {
    forall i :: 0 <= i < |stages| ==> StageOk(lib, stages[i], accepted, leafX)
  }

  /** The facts a successful verification reports about the leaf. */
  ghost predicate LeafFacts(lib: EatLib, leaf: Eat, v: Verified)
  {
    && lib.platformEnum(leaf.platform) == Some(v.platform)
    && v.binding == lib.bindingBytes(leaf)
    && var q := lib.verifyQuote(v.platform, leaf.platformQuote, v.binding);
    && q.Ok?
    && (q.value != [] && q.value[0].1 != [] ==> v.measurement == q.value[0].1)
    && (q.value == [] || q.value[0].1 == [] ==> v.measurement == leaf.platformMeasurement)
  }

  /** Decoding is a function, so of two paths from one token the shorter is a prefix of the longer. */
  lemma {:induction false} PathsAgree(lib: EatLib, eat: Eat, a: seq<Eat>, b: seq<Eat>)
    requires PathFrom(lib, eat, a) && PathFrom(lib, eat, b) && |a| <= |b|
    ensures a <= b
    decreases |a|
  {
    if |a| > 1 {
      PathsAgree(lib, a[1], a[1..], b[1..]);
      assert a == [a[0]] + a[1..] && b == [b[0]] + b[1..];
    }
  }

  /** A token has at most one decoded chain. */
  lemma ChainUnique(lib: EatLib, eat: Eat, a: seq<Eat>, b: seq<Eat>)
    requires ChainFrom(lib, eat, a) && ChainFrom(lib, eat, b)
    ensures a == b
  {
    if |a| <= |b| {
      PathsAgree(lib, eat, a, b);
      if |a| < |b| { PathStep(lib, eat, b, |a| - 1); }
    } else {
      PathsAgree(lib, eat, b, a);
      PathStep(lib, eat, a, |b| - 1);
    }
  }

  lemma {:induction false} PathStep(lib: EatLib, eat: Eat, stages: seq<Eat>, i: nat)
    requires PathFrom(lib, eat, stages) && i + 1 < |stages|
    ensures lib.decodePrevious(stages[i]) == Ok(Some(stages[i + 1]))
    decreases i
  {
    if i > 0 { PathStep(lib, stages[1], stages[1..], i - 1); }
  }

  // ------------------------------------------------------------------
  // The recursive verifier, characterised
  // ------------------------------------------------------------------

  /** Acceptance exhibits a chain that ends under the cap and is good at every stage. */
  lemma {:induction false} AcceptedChain(lib: EatLib, eat: Eat, accepted: set<Platform>, leafX: bytes, depth: nat)
    returns (stages: seq<Eat>)
    requires VerifyEatChain(lib, eat, accepted, leafX, depth).Ok?
    ensures ChainFrom(lib, eat, stages) && AllStagesOk(lib, stages, accepted, leafX)
    ensures LeafFacts(lib, eat, VerifyEatChain(lib, eat, accepted, leafX, depth).value)
    ensures VerifyEatChain(lib, eat, accepted, leafX, depth).value.depth == depth + |stages| <= 17
    decreases if depth > 16 then 0 else 17 - depth
  {
    StageCheckMeansStageOk(lib, eat, accepted, leafX);
    match lib.decodePrevious(eat)
    case Ok(None) => stages := [eat];
    case Ok(Some(previous)) =>
      var rest := AcceptedChain(lib, previous, accepted, leafX, depth + 1);
      stages := [eat] + rest;
      assert stages[1..] == rest;
  }

  /** Every good chain that ends under the cap is accepted. */
  lemma {:induction false} GoodChainAccepted(lib: EatLib, eat: Eat, stages: seq<Eat>, accepted: set<Platform>,
                                             leafX: bytes, depth: nat)
    requires ChainFrom(lib, eat, stages) && AllStagesOk(lib, stages, accepted, leafX)
    requires depth + |stages| <= 17
    ensures VerifyEatChain(lib, eat, accepted, leafX, depth).Ok?
    decreases |stages|
  {
    assert StageOk(lib, stages[0], accepted, leafX);
    StageCheckMeansStageOk(lib, eat, accepted, leafX);
    if |stages| > 1 {
      var rest := stages[1..];
      assert forall i :: 0 <= i < |rest| ==> rest[i] == stages[i + 1];
      GoodChainAccepted(lib, stages[1], rest, accepted, leafX, depth + 1);
    }
  }

  /** The verifier run from depth 0 succeeds exactly on the chains of at most
      17 good stages, and reports the leaf's facts and the stage count. */
  lemma RecursiveVerifierCharacterised(lib: EatLib, eat: Eat, accepted: set<Platform>)
    ensures var r := VerifyEatChain(lib, eat, accepted, eat.valueX, 0);
            && (r.Ok? <==> exists stages ::
                  |stages| <= 17 && ChainFrom(lib, eat, stages) && AllStagesOk(lib, stages, accepted, eat.valueX))
            && (r.Ok? ==> LeafFacts(lib, eat, r.value))
            && (forall stages :: r.Ok? && ChainFrom(lib, eat, stages) ==> r.value.depth == |stages|)
  {
    var r := VerifyEatChain(lib, eat, accepted, eat.valueX, 0);
    if r.Ok? {
      var found := AcceptedChain(lib, eat, accepted, eat.valueX, 0);
      forall stages | ChainFrom(lib, eat, stages) ensures r.value.depth == |stages| {
        ChainUnique(lib, eat, found, stages);
      }
    }
    if stages :| |stages| <= 17 && ChainFrom(lib, eat, stages) && AllStagesOk(lib, stages, accepted, eat.valueX) {
      GoodChainAccepted(lib, eat, stages, accepted, eat.valueX, 0);
    }
  }

  /** The rejection a stage earns by itself, in the order the checks run. */
  ghost function StageFault(lib: EatLib, stage: Eat, accepted: set<Platform>, leafX: bytes): RaError
  {
    if stage.valueX != leafX then ChainValueXDrift
    else if lib.platformEnum(stage.platform).None? then UnknownPlatform(stage.platform)
    else
      var p := lib.platformEnum(stage.platform).value;
      if p !in accepted then PlatformNotAccepted(p)
      else if stage.platformQuote == [] then EmptyQuote
      else match lib.verifyQuote(p, stage.platformQuote, lib.bindingBytes(stage))
        case Err(e) => QuoteVerify(e)
        case Ok(_) => match lib.decodePrevious(stage)
          case Err(e) => EatDecode(e)
          case Ok(_) => ChainTooDeep(16)
  }

  /** `stages` runs through good stages to the one that stops the walk: the
      first bad or undecodable stage, or the eighteenth. */
  ghost predicate StopsAt(lib: EatLib, eat: Eat, stages: seq<Eat>, accepted: set<Platform>, leafX: bytes, depth: nat)
  {
    && PathFrom(lib, eat, stages)
    && (forall i :: 0 <= i < |stages| - 1 ==> StageOk(lib, stages[i], accepted, leafX))
    && var last := stages[|stages| - 1];
       if depth + |stages| <= 17 then !StageOk(lib, last, accepted, leafX) || lib.decodePrevious(last).Err?
       else depth + |stages| == 18
  }

  ghost function Rejection(lib: EatLib, last: Eat, count: nat, accepted: set<Platform>, leafX: bytes): RaError
  {
    if count <= 17 then StageFault(lib, last, accepted, leafX) else ChainTooDeep(16)
  }

  /** A stage passes its checks exactly when it is good, and otherwise fails with its own fault. */
  lemma StageCheckMeansStageOk(lib: EatLib, stage: Eat, accepted: set<Platform>, leafX: bytes)
    ensures CheckStage(lib, stage, accepted, leafX).Ok? <==> StageOk(lib, stage, accepted, leafX)
    ensures !StageOk(lib, stage, accepted, leafX) ==>
              CheckStage(lib, stage, accepted, leafX) == Err(StageFault(lib, stage, accepted, leafX))
    ensures CheckStage(lib, stage, accepted, leafX).Ok? ==>
            LeafFacts(lib, stage, CheckStage(lib, stage, accepted, leafX).value)
    ensures StageOk(lib, stage, accepted, leafX) && lib.decodePrevious(stage).Err? ==>
              StageFault(lib, stage, accepted, leafX) == EatDecode(lib.decodePrevious(stage).error)
  {
  }

  /** The tail of a stopped walk is a stopped walk one stage deeper, behind a good stage. */
  lemma StopsAtTail(lib: EatLib, eat: Eat, stages: seq<Eat>, accepted: set<Platform>, leafX: bytes, depth: nat)
    requires StopsAt(lib, eat, stages, accepted, leafX, depth) && |stages| > 1
    ensures StopsAt(lib, stages[1], stages[1..], accepted, leafX, depth + 1)
    ensures StageOk(lib, eat, accepted, leafX) && depth <= 16
  {
  }

  lemma StopHere(lib: EatLib, eat: Eat, accepted: set<Platform>, leafX: bytes, depth: nat)
    requires depth <= 17
    requires depth == 17 || !StageOk(lib, eat, accepted, leafX) || lib.decodePrevious(eat).Err?
    ensures VerifyEatChain(lib, eat, accepted, leafX, depth) == Err(Rejection(lib, eat, depth + 1, accepted, leafX))
  {
  }

  lemma GoOn(lib: EatLib, eat: Eat, previous: Eat, accepted: set<Platform>, leafX: bytes, depth: nat, e: RaError)
    requires depth <= 16 && StageOk(lib, eat, accepted, leafX) && lib.decodePrevious(eat) == Ok(Some(previous))
    requires VerifyEatChain(lib, previous, accepted, leafX, depth + 1) == Err(e)
    ensures VerifyEatChain(lib, eat, accepted, leafX, depth) == Err(e)
  {
  }

  /** A walk that stops is rejected with the fault of the stage it stops at. */
  lemma {:induction false} StoppedWalkRejected(lib: EatLib, eat: Eat, stages: seq<Eat>, accepted: set<Platform>,
                                               leafX: bytes, depth: nat, e: RaError)
    requires StopsAt(lib, eat, stages, accepted, leafX, depth)
    requires e == Rejection(lib, stages[|stages| - 1], depth + |stages|, accepted, leafX)
    ensures VerifyEatChain(lib, eat, accepted, leafX, depth) == Err(e)
    decreases |stages|
  {
    if |stages| == 1 {
      StopHere(lib, eat, accepted, leafX, depth);
    } else {
      StopsAtTail(lib, eat, stages, accepted, leafX, depth);
      StoppedWalkRejected(lib, stages[1], stages[1..], accepted, leafX, depth + 1, e);
      GoOn(lib, eat, stages[1], accepted, leafX, depth, e);
    }
  }

  lemma {:induction false} RejectedWalkStops(lib: EatLib, eat: Eat, accepted: set<Platform>, leafX: bytes, depth: nat)
    returns (stages: seq<Eat>)
    requires depth <= 17 && VerifyEatChain(lib, eat, accepted, leafX, depth).Err?
    ensures StopsAt(lib, eat, stages, accepted, leafX, depth)
    decreases 17 - depth
  {
    StageCheckMeansStageOk(lib, eat, accepted, leafX);
    if depth <= 16 && StageOk(lib, eat, accepted, leafX) && lib.decodePrevious(eat).Ok? {
      var previous := lib.decodePrevious(eat).value.value;
      var rest := RejectedWalkStops(lib, previous, accepted, leafX, depth + 1);
      stages := [eat] + rest;
      assert stages[1..] == rest;
    } else {
      stages := [eat];
    }
  }

  /** Rejection, exactly: the error is that of the first stage at which the walk cannot go on. */
  lemma RecursiveVerifierErrors(lib: EatLib, eat: Eat, accepted: set<Platform>, e: RaError)
    ensures VerifyEatChain(lib, eat, accepted, eat.valueX, 0) == Err(e)
       <==> exists stages :: StopsAt(lib, eat, stages, accepted, eat.valueX, 0)
                          && e == Rejection(lib, stages[|stages| - 1], |stages|, accepted, eat.valueX)
  {
    if VerifyEatChain(lib, eat, accepted, eat.valueX, 0) == Err(e) {
      var stages := RejectedWalkStops(lib, eat, accepted, eat.valueX, 0);
      StoppedWalkRejected(lib, eat, stages, accepted, eat.valueX, 0,
                          Rejection(lib, stages[|stages| - 1], |stages|, accepted, eat.valueX));
    }
    if stages :|
      && StopsAt(lib, eat, stages, accepted, eat.valueX, 0)
      && e == Rejection(lib, stages[|stages| - 1], |stages|, accepted, eat.valueX)
    {
      StoppedWalkRejected(lib, eat, stages, accepted, eat.valueX, 0, e);
    }
  }

  // ------------------------------------------------------------------
  // The iterative walker of `cvm check`
  // ------------------------------------------------------------------

  datatype CheckError =
    | LeafPlatformUnknown
    | LeafQuoteFailed
    | PreviousUndecodable(message: string)
    | ValueXDrift
    | StepPlatformUnknown(step: nat)
    | StepQuoteFailed(step: nat)
    | TooDeep

  /** The remainder of the walk from a verified `cursor`, `depth` stages in. */
  function Walk(lib: EatLib, leafX: bytes, cursor: Eat, depth: nat): Result<nat, CheckError>
    requires depth <= 16
    decreases 17 - depth
  {
    match lib.decodePrevious(cursor)
    case Err(e) => Err(PreviousUndecodable(e))
    case Ok(None) => Ok(depth)
    case Ok(Some(prev)) =>
      if prev.valueX != leafX then Err(ValueXDrift)
      else match lib.platformEnum(prev.platform)
        case None => Err(StepPlatformUnknown(depth))
        case Some(p) =>
          if lib.verifyQuote(p, prev.platformQuote, lib.bindingBytes(prev)).Err? then Err(StepQuoteFailed(depth))
          else if depth + 1 > 16 then Err(TooDeep)
          else Walk(lib, leafX, prev, depth + 1)
  }

  function CheckOutcome(lib: EatLib, eat: Eat): Result<nat, CheckError>
  {
    match lib.platformEnum(eat.platform)
    case None => Err(LeafPlatformUnknown)
    case Some(p) =>
      if lib.verifyQuote(p, eat.platformQuote, lib.bindingBytes(eat)).Err? then Err(LeafQuoteFailed)
      else if lib.hasPrevious(eat) then Walk(lib, eat.valueX, eat, 1)
      else Ok(1)
  }

  /** The quote check and chain walk of `cmd_check`, as its loop runs it. */
  method CheckQuoteAndChain(lib: EatLib, eat: Eat) returns (r: Result<nat, CheckError>)
    ensures r == CheckOutcome(lib, eat)
  {
    var platform := lib.platformEnum(eat.platform);
    if platform.None? { return Err(LeafPlatformUnknown); }
    if lib.verifyQuote(platform.value, eat.platformQuote, lib.bindingBytes(eat)).Err? { return Err(LeafQuoteFailed); }
    if !lib.hasPrevious(eat) { return Ok(1); }
    var cursor, depth := eat, 1;
    while true
      invariant 1 <= depth <= 16
      invariant Walk(lib, eat.valueX, eat, 1) == Walk(lib, eat.valueX, cursor, depth)
      decreases 17 - depth
    {
      var decoded := lib.decodePrevious(cursor);
      if decoded.Err? { return Err(PreviousUndecodable(decoded.error)); }
      if decoded.value.None? { return Ok(depth); }
      var prev := decoded.value.value;
      if prev.valueX != eat.valueX { return Err(ValueXDrift); }
      var prevPlatform := lib.platformEnum(prev.platform);
      if prevPlatform.None? { return Err(StepPlatformUnknown(depth)); }
      if lib.verifyQuote(prevPlatform.value, prev.platformQuote, lib.bindingBytes(prev)).Err? {
        return Err(StepQuoteFailed(depth));
      }
      if depth + 1 > 16 { return Err(TooDeep); }
      cursor, depth := prev, depth + 1;
    }
  }

  ghost predicate WalkStagesOk(lib: EatLib, stages: seq<Eat>, leafX: bytes)
  {
    forall i :: 0 <= i < |stages| ==> stages[i].valueX == leafX && QuoteOk(lib, stages[i])
  }

  lemma {:induction false} WalkAccepts(lib: EatLib, leafX: bytes, cursor: Eat, depth: nat) returns (stages: seq<Eat>)
    requires depth <= 16 && Walk(lib, leafX, cursor, depth).Ok?
    ensures ChainFrom(lib, cursor, stages) && WalkStagesOk(lib, stages[1..], leafX)
    ensures Walk(lib, leafX, cursor, depth) == Ok(depth + |stages| - 1) && depth + |stages| <= 17
    decreases 17 - depth
  {
    match lib.decodePrevious(cursor)
    case Ok(None) => stages := [cursor];
    case Ok(Some(prev)) =>
      var rest := WalkAccepts(lib, leafX, prev, depth + 1);
      stages := [cursor] + rest;
      assert stages[1..] == rest == [prev] + rest[1..];
  }

  lemma {:induction false} WalkAcceptsChain(lib: EatLib, leafX: bytes, cursor: Eat, stages: seq<Eat>, depth: nat)
    requires ChainFrom(lib, cursor, stages) && WalkStagesOk(lib, stages[1..], leafX) && depth + |stages| <= 17
             && depth <= 16
    ensures Walk(lib, leafX, cursor, depth).Ok?
    decreases |stages|
  {
    if |stages| > 1 {
      var rest := stages[1..];
      assert rest[0].valueX == leafX && QuoteOk(lib, rest[0]);
      assert forall i :: 0 <= i < |rest[1..]| ==> rest[1..][i] == rest[i + 1];
      WalkAcceptsChain(lib, leafX, stages[1], rest, depth + 1);
    }
  }

  /** `has_previous` says whether `decode_previous` has anything to decode. */
  ghost predicate HasPreviousAgrees(lib: EatLib)
  {
    forall e: Eat :: !lib.hasPrevious(e) <==> lib.decodePrevious(e) == Ok(None)
  }

  /** The iterative walker accepts exactly the chains of at most 16 stages
      whose quotes verify and whose Value X never moves. */
  lemma IterativeWalkerCharacterised(lib: EatLib, eat: Eat)
    requires HasPreviousAgrees(lib)
    ensures CheckOutcome(lib, eat).Ok?
       <==> exists stages :: |stages| <= 16 && ChainFrom(lib, eat, stages) && WalkStagesOk(lib, stages, eat.valueX)
    ensures forall stages :: CheckOutcome(lib, eat).Ok? && ChainFrom(lib, eat, stages) ==>
            CheckOutcome(lib, eat) == Ok(|stages|)
  {
    if CheckOutcome(lib, eat).Ok? {
      var found := WalkAccepts(lib, eat.valueX, eat, 1);
      assert found == [eat] + found[1..];
      assert WalkStagesOk(lib, found, eat.valueX);
      forall stages | ChainFrom(lib, eat, stages) ensures CheckOutcome(lib, eat) == Ok(|stages|) {
        ChainUnique(lib, eat, found, stages);
      }
    }
    if stages :| |stages| <= 16 && ChainFrom(lib, eat, stages) && WalkStagesOk(lib, stages, eat.valueX) {
      assert WalkStagesOk(lib, stages[1..], eat.valueX);
      WalkAcceptsChain(lib, eat.valueX, eat, stages, 1);
      assert QuoteOk(lib, stages[0]);
    }
  }

  /** What stops the loop behind a verified stage, the n-th of its walk. */
  ghost function NextFault(lib: EatLib, leafX: bytes, last: Eat, n: nat): Option<CheckError>
  {
    var next := lib.decodePrevious(last);
    if next.Err? then Some(PreviousUndecodable(next.error))
    else if next.value.None? then None
    else if next.value.value.valueX != leafX then Some(ValueXDrift)
    else if lib.platformEnum(next.value.value.platform).None? then Some(StepPlatformUnknown(n))
    else if !QuoteOk(lib, next.value.value) then Some(StepQuoteFailed(n))
    else if n == 16 then Some(TooDeep)
    else None
  }

  /** `stages` runs through verified stages to one behind which the loop stops with `e`. */
  ghost predicate LoopStops(lib: EatLib, leafX: bytes, cursor: Eat, stages: seq<Eat>, depth: nat, e: CheckError)
  {
    && PathFrom(lib, cursor, stages) && WalkStagesOk(lib, stages[1..], leafX) && depth + |stages| <= 17
    && NextFault(lib, leafX, stages[|stages| - 1], depth + |stages| - 1) == Some(e)
  }

  lemma {:induction false} WalkFails(lib: EatLib, leafX: bytes, cursor: Eat, depth: nat) returns (stages: seq<Eat>)
    requires depth <= 16 && Walk(lib, leafX, cursor, depth).Err?
    ensures LoopStops(lib, leafX, cursor, stages, depth, Walk(lib, leafX, cursor, depth).error)
    decreases 17 - depth
  {
    if NextFault(lib, leafX, cursor, depth).Some? {
      stages := [cursor];
    } else {
      var prev := lib.decodePrevious(cursor).value.value;
      var rest := WalkFails(lib, leafX, prev, depth + 1);
      stages := [cursor] + rest;
      assert stages[1..] == rest == [prev] + rest[1..];
    }
  }

  lemma {:induction false} WalkFailsWith(lib: EatLib, leafX: bytes, cursor: Eat, stages: seq<Eat>, depth: nat,
                                         e: CheckError)
    requires depth <= 16 && LoopStops(lib, leafX, cursor, stages, depth, e)
    ensures Walk(lib, leafX, cursor, depth) == Err(e)
    decreases |stages|
  {
    if |stages| > 1 {
      var rest := stages[1..];
      assert rest[0].valueX == leafX && QuoteOk(lib, rest[0]);
      assert forall i :: 0 <= i < |rest[1..]| ==> rest[1..][i] == rest[i + 1];
      WalkFailsWith(lib, leafX, stages[1], rest, depth + 1, e);
    }
  }

  /** The loop's errors, exactly: the leaf's own, or that of the first step behind
      verified stages that cannot be taken, with its number. */
  lemma IterativeWalkerErrors(lib: EatLib, eat: Eat, e: CheckError)
    requires HasPreviousAgrees(lib)
    ensures var leaf := lib.platformEnum(eat.platform);
            CheckOutcome(lib, eat) == Err(e) <==>
              if leaf.None? then e == LeafPlatformUnknown
              else if !QuoteOk(lib, eat) then e == LeafQuoteFailed
              else exists stages :: LoopStops(lib, eat.valueX, eat, stages, 1, e)
  {
    if QuoteOk(lib, eat) {
      if CheckOutcome(lib, eat) == Err(e) { var stages := WalkFails(lib, eat.valueX, eat, 1); }
      if stages :| LoopStops(lib, eat.valueX, eat, stages, 1, e) { WalkFailsWith(lib, eat.valueX, eat, stages, 1, e); }
    }
  }

  /** Every stage of the token's chain meets the policy only the recursive verifier has. */
  ghost predicate ChainPolicyOk(lib: EatLib, eat: Eat, accepted: set<Platform>)
  {
    forall stages, i :: ChainFrom(lib, eat, stages) && 0 <= i < |stages| ==> PolicyOk(lib, stages[i], accepted)
  }

  /** Where the two walkers part, exactly: the recursive one also applies the
      policy at every stage, and alone accepts a chain of 17 stages. */
  lemma WalkersAgree(lib: EatLib, eat: Eat, accepted: set<Platform>)
    requires HasPreviousAgrees(lib)
    ensures var r := VerifyEatChain(lib, eat, accepted, eat.valueX, 0);
            && ((r.Ok? && r.value.depth <= 16) <==>
                (CheckOutcome(lib, eat).Ok? && ChainPolicyOk(lib, eat, accepted)))
            && (r.Ok? && r.value.depth <= 16 ==> CheckOutcome(lib, eat) == Ok(r.value.depth))
            && (r.Ok? && r.value.depth == 17 ==> CheckOutcome(lib, eat).Err?)
  {
    var r := VerifyEatChain(lib, eat, accepted, eat.valueX, 0);
    RecursiveVerifierCharacterised(lib, eat, accepted);
    IterativeWalkerCharacterised(lib, eat);
    if r.Ok? {
      var found := AcceptedChain(lib, eat, accepted, eat.valueX, 0);
      assert WalkStagesOk(lib, found, eat.valueX) by {
        forall i | 0 <= i < |found| ensures found[i].valueX == eat.valueX && QuoteOk(lib, found[i]) {
          assert StageOk(lib, found[i], accepted, eat.valueX);
        }
      }
      forall stages | ChainFrom(lib, eat, stages) ensures stages == found { ChainUnique(lib, eat, stages, found); }
      forall i | 0 <= i < |found| ensures PolicyOk(lib, found[i], accepted) {
        assert StageOk(lib, found[i], accepted, eat.valueX);
      }
    }
    if CheckOutcome(lib, eat).Ok? && ChainPolicyOk(lib, eat, accepted) {
      var stages :| |stages| <= 16 && ChainFrom(lib, eat, stages) && WalkStagesOk(lib, stages, eat.valueX);
      assert AllStagesOk(lib, stages, accepted, eat.valueX);
    }
  }

  /** On every good chain of exactly 17 stages they part: the recursive verifier accepts, the loop rejects. */
  lemma WalkersPartAtSeventeen(lib: EatLib, eat: Eat, stages: seq<Eat>, accepted: set<Platform>)
    requires HasPreviousAgrees(lib) && |stages| == 17
    requires ChainFrom(lib, eat, stages) && AllStagesOk(lib, stages, accepted, eat.valueX)
    ensures VerifyEatChain(lib, eat, accepted, eat.valueX, 0).Ok? && CheckOutcome(lib, eat).Err?
  {
    GoodChainAccepted(lib, eat, stages, accepted, eat.valueX, 0);
    IterativeWalkerCharacterised(lib, eat);
    forall other | ChainFrom(lib, eat, other) ensures |other| == 17 { ChainUnique(lib, eat, other, stages); }
  }

  /** A library in which a token with n bytes of previous attestation is followed by n stages. */
  function CountingLib(): EatLib
  {
    EatLib(_ => Err("no decoding"), (e: Eat) => e.previousAttestation != [],
           (e: Eat) => if e.previousAttestation == [] then Ok(None) else Ok(Some(Counted(|e.previousAttestation| - 1))),
           _ => Some(Nitro), _ => [], (_, _, _) => Ok([]))
  }

  function Counted(n: nat): Eat { Eat([], 0, [], [1], [], seq(n, _ => 0)) }

  lemma {:induction false} CountedChain(n: nat) returns (stages: seq<Eat>)
    ensures |stages| == n + 1 && ChainFrom(CountingLib(), Counted(n), stages)
    ensures AllStagesOk(CountingLib(), stages, {Nitro}, [])
  {
    assert Counted(n).previousAttestation == [] <==> n == 0;
    if n == 0 {
      stages := [Counted(0)];
    } else {
      var rest := CountedChain(n - 1);
      stages := [Counted(n)] + rest;
      assert stages[1..] == rest;
    }
  }

  /** Such a token exists. */
  lemma SomeTokenSplitsTheWalkers()
    ensures exists lib, eat: Eat, accepted :: HasPreviousAgrees(lib)
              && VerifyEatChain(lib, eat, accepted, eat.valueX, 0).Ok? && CheckOutcome(lib, eat).Err?
  {
    var stages := CountedChain(16);
    WalkersPartAtSeventeen(CountingLib(), Counted(16), stages, {Nitro});
  }
}
