/** Concurrent `email_send` requests at the tool gate, with an atomic redeemer
    whose requests and replies the network may delay, repeat or lose. */
module GateRuns {
  import opened Common
  import opened ToolGate

  /** What is fixed for the lifetime of a gate. */
  datatype Env = Env(lib: GateLib, ktLogPub: bytes, bootId: bytes, boot: KeyEntry, resolves: string -> bool)

  /** What the two fetches of a key lookup returned. */
  datatype Answer = Answer(kt: Option<KtResponse>, key: Option<IssuerKey>)

  datatype Mail = Mail(to: string, subject: string, body: string)

  datatype Phase =
    | Challenged(token: Token, challenge: Challenge)              // challenge found in the window
    | Seeking(token: Token, challenge: Challenge)                 // key not cached, log being fetched
    | Keyed(token: Token, challenge: Challenge, entry: KeyEntry)
    | Redeeming(epoch: nat, nonce: bytes)
    | Granted(epoch: nat, nonce: bytes)

  /** A request under way.  `tkid` is the key id its token names. */
  datatype Request = Request(mail: Mail, tkid: bytes, phase: Phase)

  /** One call of the mailer. */
  datatype Send = Send(request: nat, epoch: nat, nonce: bytes, tkid: bytes, mail: Mail)

  /** The redeemer and the messages to and from it. */
  datatype Redeemer = Redeemer(
    posted: map<nat, (nat, bytes)>,        // redeem messages sent; they outlive their request
    spent: set<(nat, bytes)>,              // the redeemer's set
    granted: map<nat, (nat, bytes)>,       // messages it answered with a success status
    refused: set<nat>)                     // messages it answered with 409

  datatype State = State(
    recent: seq<Challenge>,
    keys: map<bytes, KeyEntry>,
    started: map<nat, Mail>,               // every request there has been, with the mail it asks for
    requests: map<nat, Request>,
    redeemer: Redeemer,
    sends: seq<Send>)                      // calls of the mailer, whether or not delivery worked

  datatype Step =
    | Issue(challenge: Challenge)
    | Start(request: nat, mail: Mail, auth: Option<string>)
    | LookUp(request: nat)                 // the cache, under its own lock
    | Fetch(request: nat, answer: Answer)
    | VerifyToken(request: nat)
    | Redeem(request: nat)                 // the message reaches the redeemer, late or again
    | Reply(request: nat, status: Option<nat>)   // what reaches the gate; no reply is `None`
    | SendMail(request: nat)

  function Boot(env: Env): State
  {
    State([], map[env.bootId := env.boot], map[], map[], Redeemer(map[], {}, map[], {}), [])
  }

  function Resolved(env: Env, tkid: bytes, a: Answer): Option<KeyEntry>
  {
    Resolve(env.lib, env.ktLogPub, tkid, a.kt, a.key)
  }

  function Drop(s: State, r: nat): State { s.(requests := s.requests - {r}) }

  function Advance(s: State, r: nat, phase: Phase): State
    requires r in s.requests
  {
    s.(requests := s.requests[r := s.requests[r].(phase := phase)])
  }

  /** `email_send` up to the challenge lookup: requests that fail a check end there. */
  function Started(env: Env, s: State, r: nat, mail: Mail, auth: Option<string>): State
  {
    var s1 := s.(started := s.started[r := mail]);
    if Trim(mail.to) == "" || Trim(mail.subject) == "" || !env.resolves(mail.to) then s1
    else if auth.None? || env.lib.parseAuthorization(auth.value).None? then s1
    else
      var token := env.lib.parseAuthorization(auth.value).value;
      match ChallengeForDigest(env.lib, s.recent, token.challengeDigest)
      case None => s1
      case Some(ch) => s1.(requests := s1.requests[r := Request(mail, token.tokenKeyId, Challenged(token, ch))])
  }

  function LookedUp(s: State, r: nat): State
  {
    if r in s.requests && s.requests[r].phase.Challenged? then
      var p, tkid := s.requests[r].phase, s.requests[r].tkid;
      if tkid in s.keys then Advance(s, r, Keyed(p.token, p.challenge, s.keys[tkid]))
      else Advance(s, r, Seeking(p.token, p.challenge))
    else s
  }

  /** `resolve_via_kt` and the insert of `key_for`, which does not look at what is cached by then. */
  function Fetched(env: Env, s: State, r: nat, answer: Answer): State
  {
    if r in s.requests && s.requests[r].phase.Seeking? then
      var p, tkid := s.requests[r].phase, s.requests[r].tkid;
      match Resolved(env, tkid, answer)
      case None => Drop(s, r)
      case Some(e) => Advance(s.(keys := s.keys[tkid := e]), r, Keyed(p.token, p.challenge, e))
    else s
  }

  function Posted(s: State, r: nat, pair: (nat, bytes)): State
  {
    s.(redeemer := s.redeemer.(posted := s.redeemer.posted[r := pair]))
  }

  function TokenVerified(env: Env, s: State, r: nat): State
  {
    if r in s.requests && s.requests[r].phase.Keyed? then
      var p := s.requests[r].phase;
      match env.lib.verifyToken(p.entry.key, p.token, p.challenge)
      case None => Drop(s, r)
      case Some(nonce) =>
        Advance(Posted(s, r, (p.entry.epoch, nonce)), r, Redeeming(p.entry.epoch, nonce))
    else s
  }

  /** The redeemer is atomic: a pair it has not seen is spent and granted, any other refused. */
  function Redeemed(s: State, r: nat): State { s.(redeemer := Judge(s.redeemer, r)) }

  function Judge(d: Redeemer, r: nat): Redeemer
  {
    if r !in d.posted then d
    else if d.posted[r] in d.spent then d.(refused := d.refused + {r})
    else d.(spent := d.spent + {d.posted[r]}, granted := d.granted[r := d.posted[r]])
  }

  /** A status the gate may see: a success only if the redeemer granted the
      message, a 409 only if it refused it; anything else, or nothing, at any time. */
  predicate MayArrive(s: State, r: nat, status: Option<nat>)
  {
    match status
    case None => true
    case Some(code) => (200 <= code < 300 ==> r in s.redeemer.granted) && (code == 409 ==> r in s.redeemer.refused)
  }

  /** The gate goes by its own reading of the status. */
  function Replied(s: State, r: nat, status: Option<nat>): State
  {
    if r in s.requests && s.requests[r].phase.Redeeming? && MayArrive(s, r, status) then
      match SpendStatus(status)
      case None => Advance(s, r, Granted(s.requests[r].phase.epoch, s.requests[r].phase.nonce))
      case Some(_) => Drop(s, r)
    else s
  }

  function Mailed(s: State, r: nat): State
  {
    if r in s.requests && s.requests[r].phase.Granted? then
      var q := s.requests[r];
      Drop(s.(sends := s.sends + [Send(r, q.phase.epoch, q.phase.nonce, q.tkid, q.mail)]), r)
    else s
  }

  /** One step; a step that is not enabled changes nothing. */
  function Apply(env: Env, s: State, step: Step): State
  {
    match step
    case Issue(ch) => s.(recent := Registered(s.recent, ch))
    case Start(r, mail, auth) => if r in s.started then s else Started(env, s, r, mail, auth)
    case LookUp(r) => LookedUp(s, r)
    case Fetch(r, answer) => Fetched(env, s, r, answer)
    case VerifyToken(r) => TokenVerified(env, s, r)
    case Redeem(r) => Redeemed(s, r)
    case Reply(r, status) => Replied(s, r, status)
    case SendMail(r) => Mailed(s, r)
  }

  function Run(env: Env, s: State, steps: seq<Step>): State
  {
    if steps == [] then s else Apply(env, Run(env, s, steps[..|steps| - 1]), steps[|steps| - 1])
  }

  // ------------------------------------------------------------------
  // At most one mail per (epoch, nonce)
  // ------------------------------------------------------------------

  function At<V>(m: map<nat, V>, r: nat): Option<V> { if r in m then Some(m[r]) else None }

  /** What a request has asked of the redeemer and got, by phase. */
  ghost predicate RequestOk(p: Phase, post: Option<(nat, bytes)>, grant: Option<(nat, bytes)>)
  {
    match p
    case Redeeming(epoch, nonce) => post == Some((epoch, nonce))
    case Granted(epoch, nonce) => post == Some((epoch, nonce)) == grant
    case _ => post == None
  }

  ghost predicate RequestAt(s: State, r: nat)
    requires r in s.requests
  {
    RequestOk(s.requests[r].phase, At(s.redeemer.posted, r), At(s.redeemer.granted, r))
  }

  ghost predicate RequestsOk(s: State)
  {
    && s.requests.Keys <= s.started.Keys && s.redeemer.posted.Keys <= s.started.Keys
    && forall r :: r in s.requests ==> RequestAt(s, r)
  }

  /** The redeemer granted only what was asked and is spent, and no pair twice. */
  ghost predicate GrantsOk(s: State)
  {
    var d := s.redeemer;
    && (forall r :: r in d.granted ==> r in d.posted && d.granted[r] == d.posted[r] && d.granted[r] in d.spent)
    && (forall r :: r in d.refused ==> r in d.posted && d.posted[r] in d.spent)
    && (forall r, q :: r in d.granted && q in d.granted && r != q ==> d.granted[r] != d.granted[q])
  }

  ghost predicate SendBacked(s: State, m: Send)
  {
    m.request in s.started && m.request !in s.requests && At(s.redeemer.granted, m.request) == Some((m.epoch, m.nonce))
  }

  ghost predicate SendsOk(s: State)
  {
    && (forall i :: 0 <= i < |s.sends| ==> SendBacked(s, s.sends[i]))
    && (forall i, j :: 0 <= i < j < |s.sends| ==> s.sends[i].request != s.sends[j].request)
  }

  ghost predicate Inv(s: State) { RequestsOk(s) && GrantsOk(s) && SendsOk(s) }

  /** A step at the gate that neither redeems nor sends. */
  ghost predicate Quiet(s: State, s': State)
  {
    && s'.redeemer.granted == s.redeemer.granted && s'.redeemer.refused == s.redeemer.refused
    && s'.redeemer.spent == s.redeemer.spent && s'.sends == s.sends
    && (forall r :: r in s.redeemer.posted ==> r in s'.redeemer.posted) && s.started.Keys <= s'.started.Keys
    && s'.requests.Keys <= s.requests.Keys + (s'.started.Keys - s.started.Keys)
  }

  lemma StartIsQuiet(env: Env, s: State, r: nat, mail: Mail, auth: Option<string>)
    requires r !in s.started
    ensures Quiet(s, Started(env, s, r, mail, auth))
  {
  }

  lemma GateStepsAreQuiet(env: Env, s: State, r: nat, a: Answer, status: Option<nat>)
    ensures Quiet(s, LookedUp(s, r)) && Quiet(s, Fetched(env, s, r, a))
    ensures Quiet(s, TokenVerified(env, s, r)) && Quiet(s, Replied(s, r, status))
  {
  }

  lemma OtherStepsAreQuiet(env: Env, s: State, step: Step)
    requires !step.Redeem? && !step.SendMail?
    ensures Quiet(s, Apply(env, s, step))
  {
    match step
    case Issue(_) =>
    case Start(r, mail, auth) => if r !in s.started { StartIsQuiet(env, s, r, mail, auth); }
    case LookUp(r) => GateStepsAreQuiet(env, s, r, Answer(None, None), None);
    case Fetch(r, a) => GateStepsAreQuiet(env, s, r, a, None);
    case VerifyToken(r) => GateStepsAreQuiet(env, s, r, Answer(None, None), None);
    case Reply(r, status) => GateStepsAreQuiet(env, s, r, Answer(None, None), status);
  }

  lemma OtherStepsKeepRequests(env: Env, s: State, step: Step)
    requires RequestsOk(s) && GrantsOk(s) && !step.Redeem? && !step.SendMail?
    ensures RequestsOk(Apply(env, s, step))
  {
    match step
    case Fetch(r, a) => FetchKeepsRequests(env, s, r, a);
    case VerifyToken(r) => VerifyKeepsRequests(env, s, r);
    case Reply(r, status) => ReplyKeepsRequests(s, r, status);
    case _ =>
  }

  lemma FetchKeepsRequests(env: Env, s: State, r: nat, a: Answer)
    requires RequestsOk(s)
    ensures RequestsOk(Fetched(env, s, r, a))
  {
  }

  lemma VerifyKeepsRequests(env: Env, s: State, r: nat)
    requires RequestsOk(s)
    ensures RequestsOk(TokenVerified(env, s, r))
  {
  }

  /** The gate reads success only from a success status, and that only a grant produces. */
  lemma ReplyKeepsRequests(s: State, r: nat, status: Option<nat>)
    requires RequestsOk(s) && GrantsOk(s)
    ensures RequestsOk(Replied(s, r, status))
  {
  }

  /** A message is posted once per request, so what was granted stays what was asked. */
  lemma OtherStepsKeepGrants(env: Env, s: State, step: Step)
    requires RequestsOk(s) && GrantsOk(s) && !step.Redeem? && !step.SendMail?
    ensures GrantsOk(Apply(env, s, step))
  {
    OtherStepsAreQuiet(env, s, step);
    if step.VerifyToken? && step.request in s.requests && s.requests[step.request].phase.Keyed? {
      assert RequestAt(s, step.request);
    }
  }

  lemma QuietKeepsSends(s: State, s': State)
    requires SendsOk(s) && Quiet(s, s')
    ensures SendsOk(s')
  {
    forall i | 0 <= i < |s'.sends| ensures SendBacked(s', s'.sends[i]) { assert SendBacked(s, s.sends[i]); }
  }

  /** The redeemer's own step: a pair enters the set at most once, so is granted at most once. */
  lemma RedeemKeepsInv(env: Env, s: State, r: nat)
    requires Inv(s)
    ensures Inv(Apply(env, s, Redeem(r)))
  {
    var s' := Apply(env, s, Redeem(r));
    forall i | 0 <= i < |s'.sends| ensures SendBacked(s', s'.sends[i]) { assert SendBacked(s, s.sends[i]); }
    forall q | q in s'.requests ensures RequestAt(s', q) {
      assert RequestAt(s, q);
    }
  }

  lemma SendKeepsInv(env: Env, s: State, r: nat)
    requires Inv(s)
    ensures Inv(Apply(env, s, SendMail(r)))
  {
    var s' := Apply(env, s, SendMail(r));
    if s' != s { assert RequestAt(s, r); }
    forall i | 0 <= i < |s.sends| ensures SendBacked(s', s.sends[i]) { assert SendBacked(s, s.sends[i]); }
  }

  lemma StepKeepsInv(env: Env, s: State, step: Step)
    requires Inv(s)
    ensures Inv(Apply(env, s, step))
  {
    if step.Redeem? {
      RedeemKeepsInv(env, s, step.request);
    } else if step.SendMail? {
      SendKeepsInv(env, s, step.request);
    } else {
      OtherStepsAreQuiet(env, s, step);
      OtherStepsKeepRequests(env, s, step);
      OtherStepsKeepGrants(env, s, step);
      QuietKeepsSends(s, Apply(env, s, step));
    }
  }

  lemma {:induction false} RunKeepsInv(env: Env, s: State, steps: seq<Step>)
    requires Inv(s)
    ensures Inv(Run(env, s, steps))
  {
    if steps != [] {
      RunKeepsInv(env, s, steps[..|steps| - 1]);
      StepKeepsInv(env, Run(env, s, steps[..|steps| - 1]), steps[|steps| - 1]);
    }
  }

  /** At most one mail per (epoch, nonce), in every interleaving: the mailer is
      called at most once for each, only after the redeemer granted that pair
      to that very request, and only for a pair it holds as spent. */
  lemma AtMostOncePrivilege(env: Env, steps: seq<Step>)
    ensures var s := Run(env, Boot(env), steps);
            && (forall i :: 0 <= i < |s.sends| ==>
                  && (s.sends[i].epoch, s.sends[i].nonce) in s.redeemer.spent
                  && At(s.redeemer.granted, s.sends[i].request) == Some((s.sends[i].epoch, s.sends[i].nonce)))
            && (forall i, j :: 0 <= i < j < |s.sends| ==>
                  s.sends[i].epoch != s.sends[j].epoch || s.sends[i].nonce != s.sends[j].nonce)
  {
    var s := Run(env, Boot(env), steps);
    RunKeepsInv(env, Boot(env), steps);
    assert forall i :: 0 <= i < |s.sends| ==> SendBacked(s, s.sends[i]);
  }

  ghost predicate Finished(s: State, r: nat)
  {
    r in s.started && r !in s.requests && forall i :: 0 <= i < |s.sends| ==> s.sends[i].request != r
  }

  /** A request that ended without a send never sends, whatever its redeem message still does. */
  lemma {:induction false} RefusedNeverSends(env: Env, s: State, r: nat, steps: seq<Step>)
    requires Finished(s, r)
    ensures Finished(Run(env, s, steps), r)
  {
    if steps != [] {
      RefusedNeverSends(env, s, r, steps[..|steps| - 1]);
      StepKeepsFinished(env, Run(env, s, steps[..|steps| - 1]), r, steps[|steps| - 1]);
    }
  }

  lemma StepKeepsFinished(env: Env, s: State, r: nat, step: Step)
    requires Finished(s, r)
    ensures Finished(Apply(env, s, step), r)
  {
    if !step.Redeem? && !step.SendMail? { OtherStepsAreQuiet(env, s, step); }
  }

  /** In particular a 409, any other status that is no success, and a lost reply each end the request for good. */
  lemma OtherOutcomeIsFinal(env: Env, s: State, r: nat, status: Option<nat>, steps: seq<Step>)
    requires Inv(s) && r in s.requests && s.requests[r].phase.Redeeming?
    requires !Success(status) && (status == Some(409) ==> r in s.redeemer.refused)
    ensures var sends := Run(env, Apply(env, s, Reply(r, status)), steps).sends;
            forall i :: 0 <= i < |sends| ==> sends[i].request != r
  {
    var s' := Apply(env, s, Reply(r, status));
    forall i | 0 <= i < |s'.sends| ensures s'.sends[i].request != r { assert SendBacked(s, s.sends[i]); }
    RefusedNeverSends(env, s', r, steps);
  }

  // ------------------------------------------------------------------
  // The mail that is sent
  // ------------------------------------------------------------------

  /** A mail the gate would send: recipient and subject say something, and the recipient resolves. */
  ghost predicate Addressed(env: Env, mail: Mail)
  {
    && (exists i :: 0 <= i < |mail.to| && !IsWhitespace(mail.to[i]))
    && (exists i :: 0 <= i < |mail.subject| && !IsWhitespace(mail.subject[i]))
    && env.resolves(mail.to)
  }

  lemma BlankExactly(s: string)
    ensures Trim(s) != "" <==> exists i :: 0 <= i < |s| && !IsWhitespace(s[i])
  {
    var a, z := TrimSplits(s);
    if Trim(s) != "" {
      assert s[|a|] == Trim(s)[0];
    } else {
      assert s == a + z;
    }
  }

  ghost predicate MailOk(env: Env, s: State, r: nat, mail: Mail)
  {
    At(s.started, r) == Some(mail) && Addressed(env, mail)
  }

  ghost predicate MailsOk(env: Env, s: State)
  {
    && (forall r :: r in s.requests ==> MailOk(env, s, r, s.requests[r].mail))
    && (forall i :: 0 <= i < |s.sends| ==> MailOk(env, s, s.sends[i].request, s.sends[i].mail))
  }

  lemma StartKeepsMails(env: Env, s: State, r: nat, mail: Mail, auth: Option<string>)
    requires MailsOk(env, s) && r !in s.started
    ensures MailsOk(env, Started(env, s, r, mail, auth))
  {
    var s' := Started(env, s, r, mail, auth);
    BlankExactly(mail.to);
    BlankExactly(mail.subject);
    assert forall q, m :: MailOk(env, s, q, m) ==> MailOk(env, s', q, m);
  }

  /** Requests keep their mail, and only they send. */
  ghost predicate SameMails(s: State, s': State)
  {
    && s'.started == s.started
    && (forall r :: r in s'.requests ==> r in s.requests && s'.requests[r].mail == s.requests[r].mail)
    && (forall i :: 0 <= i < |s'.sends| ==> i < |s.sends| || s'.sends[i].request in s.requests)
    && (forall i :: 0 <= i < |s'.sends| ==>
          if i < |s.sends| then s'.sends[i] == s.sends[i]
          else s'.sends[i].mail == s.requests[s'.sends[i].request].mail)
  }

  lemma LookUpsKeepMail(env: Env, s: State, r: nat, a: Answer)
    ensures SameMails(s, LookedUp(s, r)) && SameMails(s, Fetched(env, s, r, a))
  {
  }

  lemma ChecksKeepMail(env: Env, s: State, r: nat, status: Option<nat>)
    ensures SameMails(s, TokenVerified(env, s, r)) && SameMails(s, Replied(s, r, status))
  {
  }

  lemma SpendingKeepsMail(s: State, r: nat)
    ensures SameMails(s, Redeemed(s, r)) && SameMails(s, Mailed(s, r))
  {
  }

  lemma OtherStepsKeepMail(env: Env, s: State, step: Step)
    requires !step.Start?
    ensures SameMails(s, Apply(env, s, step))
  {
    match step
    case Issue(_) =>
    case LookUp(r) => LookUpsKeepMail(env, s, r, Answer(None, None));
    case Fetch(r, a) => LookUpsKeepMail(env, s, r, a);
    case VerifyToken(r) => ChecksKeepMail(env, s, r, None);
    case Redeem(r) => SpendingKeepsMail(s, r);
    case Reply(r, status) => ChecksKeepMail(env, s, r, status);
    case SendMail(r) => SpendingKeepsMail(s, r);
  }

  lemma SameMailsKeepOk(env: Env, s: State, s': State)
    requires MailsOk(env, s) && SameMails(s, s')
    ensures MailsOk(env, s')
  {
    forall r | r in s'.requests ensures MailOk(env, s', r, s'.requests[r].mail) {
      assert MailOk(env, s, r, s.requests[r].mail);
    }
    forall i | 0 <= i < |s'.sends| ensures MailOk(env, s', s'.sends[i].request, s'.sends[i].mail) {
      var m := s'.sends[i];
      if i < |s.sends| {
        assert MailOk(env, s, m.request, m.mail);
      } else {
        assert MailOk(env, s, m.request, s.requests[m.request].mail);
      }
    }
  }

  lemma StepKeepsMails(env: Env, s: State, step: Step)
    requires MailsOk(env, s)
    ensures MailsOk(env, Apply(env, s, step))
  {
    if step.Start? {
      if step.request !in s.started { StartKeepsMails(env, s, step.request, step.mail, step.auth); }
    } else {
      OtherStepsKeepMail(env, s, step);
      SameMailsKeepOk(env, s, Apply(env, s, step));
    }
  }

  lemma {:induction false} RunKeepsMails(env: Env, steps: seq<Step>)
    ensures MailsOk(env, Run(env, Boot(env), steps))
  {
    if steps != [] {
      RunKeepsMails(env, steps[..|steps| - 1]);
      StepKeepsMails(env, Run(env, Boot(env), steps[..|steps| - 1]), steps[|steps| - 1]);
    }
  }

  lemma StepStarts(env: Env, s: State, step: Step, r: nat)
    ensures var s' := Apply(env, s, step);
            if step.Start? && step.request == r && r !in s.started then At(s'.started, r) == Some(step.mail)
            else At(s'.started, r) == At(s.started, r)
  {
    if !step.Start? { OtherStepsKeepMail(env, s, step); }
  }

  lemma {:induction false} StartedByStep(env: Env, steps: seq<Step>, r: nat) returns (k: nat)
    requires r in Run(env, Boot(env), steps).started
    ensures k < |steps| && steps[k].Start? && steps[k].request == r
    ensures steps[k].mail == Run(env, Boot(env), steps).started[r]
  {
    var n := |steps| - 1;
    var s := Run(env, Boot(env), steps[..n]);
    StepStarts(env, s, steps[n], r);
    if r in s.started {
      k := StartedByStep(env, steps[..n], r);
    } else {
      k := n;
    }
  }

  /** Every mail sent is the mail its request asked for, unchanged, and one with
      a recipient that resolves and a subject. */
  lemma SentMailIsTheOneAsked(env: Env, steps: seq<Step>, i: nat) returns (k: nat)
    requires i < |Run(env, Boot(env), steps).sends|
    ensures var m := Run(env, Boot(env), steps).sends[i];
            && k < |steps| && steps[k].Start? && steps[k].request == m.request && steps[k].mail == m.mail
            && Addressed(env, m.mail)
  {
    var s := Run(env, Boot(env), steps);
    RunKeepsMails(env, steps);
    assert MailOk(env, s, s.sends[i].request, s.sends[i].mail);
    k := StartedByStep(env, steps, s.sends[i].request);
  }

  // ------------------------------------------------------------------
  // The gate object's checks as steps
  // ------------------------------------------------------------------

  /** The steps of one request up to the spend, taken in a row. */
  function Verified(env: Env, s: State, r: nat, mail: Mail, auth: Option<string>, a: Answer): State
  {
    var s1 := Apply(env, s, Start(r, mail, auth));
    Apply(env, Apply(env, Apply(env, s1, LookUp(r)), Fetch(r, a)), VerifyToken(r))
  }

  /** What decides over a request before any spend: a mail that can be addressed
      and a token that passes the gate's checks for its own digest. */
  function Admitted(env: Env, s: State, mail: Mail, auth: Option<string>, a: Answer)
    : Option<(nat, bytes)>
  {
    if Trim(mail.to) == "" || Trim(mail.subject) == "" || !env.resolves(mail.to) then None
    else if auth.None? || env.lib.parseAuthorization(auth.value).None? then None
    else
      var digest := env.lib.parseAuthorization(auth.value).value.challengeDigest;
      match Verdict(env.lib, env.ktLogPub, s.keys, s.recent, auth, digest, a.kt, a.key)
      case Err(_) => None
      case Ok(pair) => Some(pair)
  }

  /** What a request under way becomes once a key is looked for and, if found, the token verified. */
  function Judged(env: Env, mail: Mail, token: Token, ch: Challenge, entry: Option<KeyEntry>): Option<Request>
  {
    if entry.None? then None
    else match env.lib.verifyToken(entry.value.key, token, ch)
      case None => None
      case Some(nonce) => Some(Request(mail, token.tokenKeyId, Redeeming(entry.value.epoch, nonce)))
  }

  /** The request's message, if it got that far, is its own, and nothing is redeemed or sent. */
  ghost predicate OnlyPosted(s: State, s': State, r: nat)
  {
    && s'.redeemer.spent == s.redeemer.spent && s'.redeemer.granted == s.redeemer.granted && s'.sends == s.sends
    && (r in s'.requests && s'.requests[r].phase.Redeeming? ==>
          At(s'.redeemer.posted, r) == Some((s'.requests[r].phase.epoch, s'.requests[r].phase.nonce)))
  }

  lemma JudgeKeyed(env: Env, s: State, r: nat, mail: Mail, token: Token, ch: Challenge, entry: KeyEntry)
    requires At(s.requests, r) == Some(Request(mail, token.tokenKeyId, Keyed(token, ch, entry)))
    ensures var s' := Apply(env, s, VerifyToken(r));
            At(s'.requests, r) == Judged(env, mail, token, ch, Some(entry)) && OnlyPosted(s, s', r)
  {
  }

  lemma JudgeSeeking(env: Env, s: State, r: nat, mail: Mail, token: Token, ch: Challenge, a: Answer)
    requires At(s.requests, r) == Some(Request(mail, token.tokenKeyId, Seeking(token, ch)))
    ensures var s' := Apply(env, Apply(env, s, Fetch(r, a)), VerifyToken(r));
            && At(s'.requests, r) == Judged(env, mail, token, ch, Resolved(env, token.tokenKeyId, a))
            && OnlyPosted(s, s', r)
  {
    var entry := Resolved(env, token.tokenKeyId, a);
    if entry.Some? { JudgeKeyed(env, Apply(env, s, Fetch(r, a)), r, mail, token, ch, entry.value); }
  }

  lemma JudgeChallenged(env: Env, s: State, r: nat, mail: Mail, token: Token, ch: Challenge, a: Answer)
    requires At(s.requests, r) == Some(Request(mail, token.tokenKeyId, Challenged(token, ch)))
    ensures var s' := Apply(env, Apply(env, Apply(env, s, LookUp(r)), Fetch(r, a)), VerifyToken(r));
            var entry := KeyOf(env.lib, env.ktLogPub, s.keys, token.tokenKeyId, a.kt, a.key);
            At(s'.requests, r) == Judged(env, mail, token, ch, entry) && OnlyPosted(s, s', r)
  {
    var s1 := Apply(env, s, LookUp(r));
    if token.tokenKeyId in s.keys {
      assert Apply(env, s1, Fetch(r, a)) == s1;
      JudgeKeyed(env, s1, r, mail, token, ch, s.keys[token.tokenKeyId]);
    } else {
      JudgeSeeking(env, s1, r, mail, token, ch, a);
    }
  }

  /** The steps of a request up to the spend are the gate object's checks: same
      verdict, same epoch and nonce. */
  lemma StepsAreTheChecks(env: Env, s: State, r: nat, mail: Mail, auth: Option<string>, a: Answer)
    requires Inv(s) && r !in s.started
    ensures var pair := Admitted(env, s, mail, auth, a);
            var s' := Verified(env, s, r, mail, auth, a);
            && At(s'.requests, r) == (
                 if pair.None? then None
                 else Some(Request(mail, env.lib.parseAuthorization(auth.value).value.tokenKeyId,
                                   Redeeming(pair.value.0, pair.value.1))))
            && OnlyPosted(s, s', r)
  {
    var s1 := Apply(env, s, Start(r, mail, auth));
    if r in s1.requests {
      var token := env.lib.parseAuthorization(auth.value).value;
      var ch := ChallengeForDigest(env.lib, s.recent, token.challengeDigest).value;
      JudgeChallenged(env, s1, r, mail, token, ch, a);
    } else {
      assert s1.requests == s.requests;
    }
  }

  lemma RunThree(env: Env, s: State, a: Step, b: Step, c: Step)
    ensures Run(env, s, [a, b, c]) == Apply(env, Apply(env, Apply(env, s, a), b), c)
  {
    assert [a, b, c][..2] == [a, b] && [a, b][..1] == [a] && [a][..0] == [];
    assert Run(env, s, [a]) == Apply(env, s, a);
    assert Run(env, s, [a, b]) == Apply(env, Apply(env, s, a), b);
  }

  /** Redeem, reply and send in a row: the mail goes out exactly if the pair was unspent. */
  lemma SpendAndSend(env: Env, s: State, r: nat, code: nat)
    requires r !in s.redeemer.granted
    requires r in s.requests ==> s.requests[r].phase.Redeeming?
    requires r in s.requests ==>
               At(s.redeemer.posted, r) == Some((s.requests[r].phase.epoch, s.requests[r].phase.nonce))
    requires 200 <= code < 300
    ensures var s' := Apply(env, Apply(env, Apply(env, s, Redeem(r)), Reply(r, Some(code))), SendMail(r));
            var q := At(s.requests, r);
            s'.sends == if q.None? || (q.value.phase.epoch, q.value.phase.nonce) in s.redeemer.spent then s.sends
                        else s.sends + [Send(r, q.value.phase.epoch, q.value.phase.nonce, q.value.tkid, q.value.mail)]
  {
  }

  /** A request served alone sends its mail exactly when it is admitted and its
      (epoch, nonce) has not been spent before. */
  lemma LoneRequestSendsExactly(env: Env, s: State, r: nat, mail: Mail, auth: Option<string>, a: Answer, code: nat)
    requires Inv(s) && r !in s.started && 200 <= code < 300
    ensures var pair := Admitted(env, s, mail, auth, a);
            var s' := Run(env, Verified(env, s, r, mail, auth, a), [Redeem(r), Reply(r, Some(code)), SendMail(r)]);
            s'.sends == if pair.None? || pair.value in s.redeemer.spent then s.sends
                        else s.sends + [Send(r, pair.value.0, pair.value.1,
                                             env.lib.parseAuthorization(auth.value).value.tokenKeyId, mail)]
  {
    StepsAreTheChecks(env, s, r, mail, auth, a);
    var s3 := Verified(env, s, r, mail, auth, a);
    RunThree(env, s3, Redeem(r), Reply(r, Some(code)), SendMail(r));
    SpendAndSend(env, s3, r, code);
  }

  // ------------------------------------------------------------------
  // One mail per token, unless a lookup overwrites a cached key
  // ------------------------------------------------------------------

  /** The unconditional insert of `key_for` replaces a cached entry by one of another epoch. */
  ghost predicate Overwrites(env: Env, s: State, step: Step)
  {
    && step.Fetch? && step.request in s.requests && s.requests[step.request].phase.Seeking?
    && var tkid := s.requests[step.request].tkid;
       var e := Resolved(env, tkid, step.answer);
    && tkid in s.keys && e.Some? && e.value.epoch != s.keys[tkid].epoch
  }

  ghost predicate NoOverwrite(env: Env, steps: seq<Step>)
  {
    forall i :: 0 <= i < |steps| ==> !Overwrites(env, Run(env, Boot(env), steps[..i]), steps[i])
  }

  ghost predicate EpochOf(s: State, tkid: bytes, epoch: nat) { tkid in s.keys && s.keys[tkid].epoch == epoch }

  /** Every request past its key, and every send, has the epoch the cache has for its key id. */
  ghost predicate OneEpoch(s: State)
  {
    && (forall r :: r in s.requests ==> PhaseEpoch(s, s.requests[r].tkid, s.requests[r].phase))
    && (forall i :: 0 <= i < |s.sends| ==> EpochOf(s, s.sends[i].tkid, s.sends[i].epoch))
  }

  ghost predicate PhaseEpoch(s: State, tkid: bytes, p: Phase)
  {
    match p
    case Keyed(_, _, e) => EpochOf(s, tkid, e.epoch)
    case Redeeming(epoch, _) => EpochOf(s, tkid, epoch)
    case Granted(epoch, _) => EpochOf(s, tkid, epoch)
    case _ => true
  }

  lemma FetchKeepsEpochs(env: Env, s: State, r: nat, a: Answer)
    requires OneEpoch(s) && !Overwrites(env, s, Fetch(r, a))
    ensures OneEpoch(Fetched(env, s, r, a))
  {
    var s' := Fetched(env, s, r, a);
    assert forall t, n :: EpochOf(s, t, n) ==> EpochOf(s', t, n);
    forall q | q in s'.requests ensures PhaseEpoch(s', s'.requests[q].tkid, s'.requests[q].phase) {
      assert q in s.requests && PhaseEpoch(s, s.requests[q].tkid, s.requests[q].phase);
    }
  }

  lemma StartKeepsEpochs(env: Env, s: State, r: nat, mail: Mail, auth: Option<string>)
    requires OneEpoch(s)
    ensures OneEpoch(Started(env, s, r, mail, auth))
  {
    assert forall t, n :: EpochOf(s, t, n) <==> EpochOf(Started(env, s, r, mail, auth), t, n);
  }

  lemma LookUpKeepsEpochs(env: Env, s: State, r: nat)
    requires OneEpoch(s)
    ensures OneEpoch(LookedUp(s, r)) && OneEpoch(TokenVerified(env, s, r))
  {
    if r in s.requests { assert PhaseEpoch(s, s.requests[r].tkid, s.requests[r].phase); }
  }

  lemma SpendingKeepsEpochs(s: State, r: nat, status: Option<nat>)
    requires OneEpoch(s)
    ensures OneEpoch(Redeemed(s, r)) && OneEpoch(Replied(s, r, status)) && OneEpoch(Mailed(s, r))
  {
    if r in s.requests { assert PhaseEpoch(s, s.requests[r].tkid, s.requests[r].phase); }
  }

  lemma StepKeepsEpochs(env: Env, s: State, step: Step)
    requires OneEpoch(s) && !Overwrites(env, s, step)
    ensures OneEpoch(Apply(env, s, step))
  {
    match step
    case Issue(_) =>
    case Start(r, mail, auth) => StartKeepsEpochs(env, s, r, mail, auth);
    case LookUp(r) => LookUpKeepsEpochs(env, s, r);
    case Fetch(r, a) => FetchKeepsEpochs(env, s, r, a);
    case VerifyToken(r) => LookUpKeepsEpochs(env, s, r);
    case Redeem(r) => SpendingKeepsEpochs(s, r, None);
    case Reply(r, status) => SpendingKeepsEpochs(s, r, status);
    case SendMail(r) => SpendingKeepsEpochs(s, r, None);
  }

  lemma NoOverwritePrefix(env: Env, steps: seq<Step>, n: nat)
    requires NoOverwrite(env, steps) && n <= |steps|
    ensures NoOverwrite(env, steps[..n])
  {
    forall i | 0 <= i < n ensures !Overwrites(env, Run(env, Boot(env), steps[..n][..i]), steps[..n][i]) {
      assert steps[..n][..i] == steps[..i];
    }
  }

  lemma {:induction false} RunKeepsEpochs(env: Env, steps: seq<Step>)
    requires NoOverwrite(env, steps)
    ensures OneEpoch(Run(env, Boot(env), steps))
  {
    if steps != [] {
      var n := |steps| - 1;
      NoOverwritePrefix(env, steps, n);
      RunKeepsEpochs(env, steps[..n]);
      StepKeepsEpochs(env, Run(env, Boot(env), steps[..n]), steps[n]);
    }
  }

  /** If no lookup of the run overwrites a cached key with one of another
      epoch, a token buys at most one mail: no two sends share key id and
      nonce.  Nothing is asked of the log. */
  lemma OneMailPerToken(env: Env, steps: seq<Step>, i: nat, j: nat)
    requires NoOverwrite(env, steps) && i < j < |Run(env, Boot(env), steps).sends|
    ensures var sends := Run(env, Boot(env), steps).sends;
            (sends[i].tkid, sends[i].nonce) != (sends[j].tkid, sends[j].nonce)
  {
    AtMostOncePrivilege(env, steps);
    RunKeepsEpochs(env, steps);
    var s := Run(env, Boot(env), steps);
    assert EpochOf(s, s.sends[i].tkid, s.sends[i].epoch) && EpochOf(s, s.sends[j].tkid, s.sends[j].epoch);
  }

  /** Every lookup of the run that resolves a key id resolves it to one epoch, that of the bootstrap key included. */
  ghost predicate LogAgrees(env: Env, version: bytes -> nat, steps: seq<Step>)
  {
    && version(env.bootId) == env.boot.epoch
    && forall i, t: bytes :: 0 <= i < |steps| && steps[i].Fetch? && Resolved(env, t, steps[i].answer).Some? ==>
         Resolved(env, t, steps[i].answer).value.epoch == version(t)
  }

  /** Only a lookup that resolves changes the cache. */
  lemma CacheStep(env: Env, s: State, step: Step, t: bytes)
    ensures var s' := Apply(env, s, step);
            t in s'.keys ==> || (t in s.keys && s'.keys[t] == s.keys[t])
                             || (step.Fetch? && Resolved(env, t, step.answer) == Some(s'.keys[t]))
  {
  }

  lemma {:induction false} AgreeingCache(env: Env, version: bytes -> nat, steps: seq<Step>)
    requires LogAgrees(env, version, steps)
    ensures var s := Run(env, Boot(env), steps); forall t :: t in s.keys ==> s.keys[t].epoch == version(t)
  {
    if steps != [] {
      var n := |steps| - 1;
      assert forall i :: 0 <= i < n ==> steps[..n][i] == steps[i];
      AgreeingCache(env, version, steps[..n]);
      var s, s' := Run(env, Boot(env), steps[..n]), Run(env, Boot(env), steps);
      forall t | t in s'.keys ensures s'.keys[t].epoch == version(t) { CacheStep(env, s, steps[n], t); }
    }
  }

  /** In particular a log that lists every key id under one version leaves no room for an overwrite. */
  lemma AgreeingLogNeverOverwrites(env: Env, version: bytes -> nat, steps: seq<Step>)
    requires LogAgrees(env, version, steps)
    ensures NoOverwrite(env, steps)
  {
    forall i | 0 <= i < |steps| ensures !Overwrites(env, Run(env, Boot(env), steps[..i]), steps[i]) {
      assert forall k :: 0 <= k < i ==> steps[..i][k] == steps[k];
      AgreeingCache(env, version, steps[..i]);
    }
  }

  // ------------------------------------------------------------------
  // When a token can buy two mails
  // ------------------------------------------------------------------

  /** `token` can be presented and answers `ch`. */
  ghost predicate Answers(env: Env, token: Token, ch: Challenge)
  {
    && env.lib.digest(ch) == token.challengeDigest
    && exists auth :: env.lib.parseAuthorization(auth) == Some(token)
  }

  /** The gate can come to hold `e` for the key id: the bootstrap entry for its own id, else what some answers
      resolve to. */
  ghost predicate Obtainable(env: Env, tkid: bytes, e: KeyEntry)
  {
    if tkid == env.bootId then e == env.boot else exists a :: Resolved(env, tkid, a) == Some(e)
  }

  ghost predicate BuysWith(env: Env, epoch: nat, nonce: bytes, token: Token, ch: Challenge, e: KeyEntry)
  {
    && Answers(env, token, ch) && Obtainable(env, token.tokenKeyId, e) && e.epoch == epoch
    && env.lib.verifyToken(e.key, token, ch) == Some(nonce)
  }

  /** Some token of the key id, for some challenge, carries the nonce under an obtainable key of the epoch. */
  ghost predicate Buys(env: Env, tkid: bytes, epoch: nat, nonce: bytes)
  {
    exists token: Token, ch, e :: token.tokenKeyId == tkid && BuysWith(env, epoch, nonce, token, ch, e)
  }

  ghost predicate PhaseBacked(env: Env, tkid: bytes, p: Phase)
  {
    match p
    case Challenged(token, ch) => tkid == token.tokenKeyId && Answers(env, token, ch)
    case Seeking(token, ch) => tkid == token.tokenKeyId && Answers(env, token, ch) && tkid != env.bootId
    case Keyed(token, ch, e) => tkid == token.tokenKeyId && Answers(env, token, ch) && Obtainable(env, tkid, e)
    case Redeeming(epoch, nonce) => Buys(env, tkid, epoch, nonce)
    case Granted(epoch, nonce) => Buys(env, tkid, epoch, nonce)
  }

  ghost predicate Backed(env: Env, s: State)
  {
    && env.bootId in s.keys
    && (forall t :: t in s.keys ==> Obtainable(env, t, s.keys[t]))
    && (forall r :: r in s.requests ==> PhaseBacked(env, s.requests[r].tkid, s.requests[r].phase))
    && (forall i :: 0 <= i < |s.sends| ==> Buys(env, s.sends[i].tkid, s.sends[i].epoch, s.sends[i].nonce))
  }

  lemma StartBacked(env: Env, s: State, r: nat, mail: Mail, auth: Option<string>)
    requires Backed(env, s)
    ensures Backed(env, Started(env, s, r, mail, auth))
  {
    var s' := Started(env, s, r, mail, auth);
    if s'.requests != s.requests {
      var token := env.lib.parseAuthorization(auth.value).value;
      LookupFindsFirst(env.lib, s.recent, token.challengeDigest);
      assert Answers(env, token, ChallengeForDigest(env.lib, s.recent, token.challengeDigest).value);
    }
  }

  lemma VerifyBacked(env: Env, s: State, r: nat)
    requires Backed(env, s)
    ensures Backed(env, TokenVerified(env, s, r))
  {
    if r in s.requests && s.requests[r].phase.Keyed? {
      var p := s.requests[r].phase;
      assert PhaseBacked(env, s.requests[r].tkid, p);
      var nonce := env.lib.verifyToken(p.entry.key, p.token, p.challenge);
      if nonce.Some? { assert BuysWith(env, p.entry.epoch, nonce.value, p.token, p.challenge, p.entry); }
    }
  }

  lemma StepKeepsBacked(env: Env, s: State, step: Step)
    requires Backed(env, s)
    ensures Backed(env, Apply(env, s, step))
  {
    match step
    case Start(r, mail, auth) => StartBacked(env, s, r, mail, auth);
    case VerifyToken(r) => VerifyBacked(env, s, r);
    case Fetch(r, a) => FetchBacked(env, s, r, a);
    case SendMail(r) => MailBacked(env, s, r);
    case _ =>
  }

  lemma FetchBacked(env: Env, s: State, r: nat, a: Answer)
    requires Backed(env, s)
    ensures Backed(env, Fetched(env, s, r, a))
  {
    if r in s.requests { assert PhaseBacked(env, s.requests[r].tkid, s.requests[r].phase); }
  }

  lemma MailBacked(env: Env, s: State, r: nat)
    requires Backed(env, s)
    ensures Backed(env, Mailed(s, r))
  {
    if r in s.requests { assert PhaseBacked(env, s.requests[r].tkid, s.requests[r].phase); }
  }

  lemma {:induction false} RunKeepsBacked(env: Env, steps: seq<Step>)
    ensures Backed(env, Run(env, Boot(env), steps))
  {
    if steps != [] {
      RunKeepsBacked(env, steps[..|steps| - 1]);
      StepKeepsBacked(env, Run(env, Boot(env), steps[..|steps| - 1]), steps[|steps| - 1]);
    }
  }

  /** The cache over every run: each key hashes to its own map key, and each but
      the bootstrap one came with a verified log that lists it under its epoch. */
  lemma CacheStaysSound(env: Env, steps: seq<Step>)
    requires env.lib.tokenKeyId(env.boot.key) == Some(env.bootId)
    ensures CacheSound(env.lib, env.ktLogPub, (env.bootId, env.boot), Run(env, Boot(env), steps).keys)
  {
    RunKeepsBacked(env, steps);
    var keys := Run(env, Boot(env), steps).keys;
    forall t | t in keys && t != env.bootId
      ensures env.lib.tokenKeyId(keys[t].key) == Some(t) && FromVerifiedLog(env.lib, env.ktLogPub, t, keys[t])
    {
      var a :| Resolved(env, t, a) == Some(keys[t]);
      ResolveIsSound(env.lib, env.ktLogPub, t, a.kt, a.key);
    }
  }

  ghost predicate Reachable(env: Env, s: State) { exists steps :: Run(env, Boot(env), steps) == s }

  lemma StepReaches(env: Env, s: State, step: Step)
    requires Reachable(env, s)
    ensures Reachable(env, Apply(env, s, step))
  {
    var steps :| Run(env, Boot(env), steps) == s;
    var more := steps + [step];
    assert more[..|steps|] == steps;
    assert Run(env, Boot(env), more) == Apply(env, s, step);
  }

  /** The window after the same challenge has been issued n more times. */
  function Filled(recent: seq<Challenge>, ch: Challenge, n: nat): seq<Challenge>
  {
    if n == 0 then recent else Registered(Filled(recent, ch, n - 1), ch)
  }

  lemma {:induction false} FilledEnds(recent: seq<Challenge>, ch: Challenge, n: nat)
    requires n <= MAX_RECENT_CHALLENGES
    ensures var w := Filled(recent, ch, n);
            && n <= |w| && (n > 0 ==> |w| <= MAX_RECENT_CHALLENGES)
            && forall i :: |w| - n <= i < |w| ==> w[i] == ch
  {
    if n > 0 { FilledEnds(recent, ch, n - 1); }
  }

  lemma {:induction false} FilledReaches(env: Env, s: State, ch: Challenge, n: nat)
    requires Reachable(env, s)
    ensures Reachable(env, s.(recent := Filled(s.recent, ch, n)))
  {
    if n == 0 {
      assert s.(recent := s.recent) == s;
    } else {
      FilledReaches(env, s, ch, n - 1);
      StepReaches(env, s.(recent := Filled(s.recent, ch, n - 1)), Issue(ch));
    }
  }

  /** Whatever the window holds, a challenge can be made the one its digest finds. */
  lemma ChallengeReaches(env: Env, s: State, ch: Challenge) returns (w: seq<Challenge>)
    requires Reachable(env, s)
    ensures Reachable(env, s.(recent := w)) && ChallengeForDigest(env.lib, w, env.lib.digest(ch)) == Some(ch)
  {
    w := Filled(s.recent, ch, MAX_RECENT_CHALLENGES);
    FilledReaches(env, s, ch, MAX_RECENT_CHALLENGES);
    FilledEnds(s.recent, ch, MAX_RECENT_CHALLENGES);
    LookupFindsFirst(env.lib, w, env.lib.digest(ch));
    assert w[0] == ch;
  }

  function WithRequest(s: State, r: nat, q: Request): State
  {
    s.(started := s.started[r := q.mail], requests := s.requests[r := q])
  }

  /** A token for a challenge in the window can be presented, and then looks for its key. */
  lemma LookUpReaches(env: Env, s: State, r: nat, mail: Mail, token: Token, ch: Challenge)
    requires Reachable(env, s) && r !in s.started && Answers(env, token, ch) && Addressed(env, mail)
    requires ChallengeForDigest(env.lib, s.recent, token.challengeDigest) == Some(ch)
    ensures var t := token.tokenKeyId;
            var phase := if t in s.keys then Keyed(token, ch, s.keys[t]) else Seeking(token, ch);
            Reachable(env, WithRequest(s, r, Request(mail, t, phase)))
  {
    var auth :| env.lib.parseAuthorization(auth) == Some(token);
    BlankExactly(mail.to);
    BlankExactly(mail.subject);
    var start := Start(r, mail, Some(auth));
    var s1 := WithRequest(s, r, Request(mail, token.tokenKeyId, Challenged(token, ch)));
    assert Apply(env, s, start) == s1;
    StepReaches(env, s, start);
    StepReaches(env, s1, LookUp(r));
    var t := token.tokenKeyId;
    var phase := if t in s.keys then Keyed(token, ch, s.keys[t]) else Seeking(token, ch);
    LookUpAdvances(s, r, mail, token, ch, phase);
  }

  lemma LookUpAdvances(s: State, r: nat, mail: Mail, token: Token, ch: Challenge, phase: Phase)
    requires var t := token.tokenKeyId;
             phase == if t in s.keys then Keyed(token, ch, s.keys[t]) else Seeking(token, ch)
    ensures LookedUp(WithRequest(s, r, Request(mail, token.tokenKeyId, Challenged(token, ch))), r)
         == WithRequest(s, r, Request(mail, token.tokenKeyId, phase))
  {
    var q := Request(mail, token.tokenKeyId, phase);
    assert WithRequest(s, r, q.(phase := Challenged(token, ch))).requests[r := q] == s.requests[r := q];
  }

  function WithKey(s: State, r: nat, e: KeyEntry): State
    requires r in s.requests && s.requests[r].phase.Seeking?
  {
    var q := s.requests[r];
    s.(keys := s.keys[q.tkid := e],
       requests := s.requests[r := q.(phase := Keyed(q.phase.token, q.phase.challenge, e))])
  }

  lemma FetchReaches(env: Env, s: State, r: nat, a: Answer, e: KeyEntry)
    requires Reachable(env, s) && r in s.requests && s.requests[r].phase.Seeking?
    requires Resolved(env, s.requests[r].tkid, a) == Some(e)
    ensures Reachable(env, WithKey(s, r, e))
  {
    StepReaches(env, s, Fetch(r, a));
  }

  /** The state after a keyed request has been verified, redeemed and served. */
  function Served(s: State, r: nat, epoch: nat, nonce: bytes): State
    requires r in s.requests
  {
    var pair, d := (epoch, nonce), s.redeemer;
    s.(requests := s.requests - {r},
       redeemer := d.(posted := d.posted[r := pair], spent := d.spent + {pair}, granted := d.granted[r := pair]),
       sends := s.sends + [Send(r, epoch, nonce, s.requests[r].tkid, s.requests[r].mail)])
  }

  lemma ServeReaches(env: Env, s: State, r: nat, nonce: bytes)
    requires Reachable(env, s) && r in s.requests && s.requests[r].phase.Keyed?
    requires var p := s.requests[r].phase; env.lib.verifyToken(p.entry.key, p.token, p.challenge) == Some(nonce)
    requires (s.requests[r].phase.entry.epoch, nonce) !in s.redeemer.spent
    ensures Reachable(env, Served(s, r, s.requests[r].phase.entry.epoch, nonce))
  {
    var q, epoch := s.requests[r], s.requests[r].phase.entry.epoch;
    var s1 := Apply(env, s, VerifyToken(r));
    var s2 := Apply(env, s1, Redeem(r));
    var s3 := Apply(env, s2, Reply(r, Some(200)));
    StepReaches(env, s, VerifyToken(r));
    StepReaches(env, s1, Redeem(r));
    StepReaches(env, s2, Reply(r, Some(200)));
    StepReaches(env, s3, SendMail(r));
    assert s3.requests[r] == q.(phase := Granted(epoch, nonce));
    assert s3.requests - {r} == s.requests - {r};
  }

  /** Two requests with keys of different epochs and one nonce both get their mail. */
  lemma ServeBoth(env: Env, s: State, r: nat, q: nat, nonce: bytes)
    requires Reachable(env, s) && r in s.requests && q in s.requests && r != q
    requires s.requests[r].phase.Keyed? && s.requests[q].phase.Keyed?
    requires var p := s.requests[r].phase; env.lib.verifyToken(p.entry.key, p.token, p.challenge) == Some(nonce)
    requires var p := s.requests[q].phase; env.lib.verifyToken(p.entry.key, p.token, p.challenge) == Some(nonce)
    requires s.requests[r].phase.entry.epoch != s.requests[q].phase.entry.epoch
    requires (s.requests[r].phase.entry.epoch, nonce) !in s.redeemer.spent
             && (s.requests[q].phase.entry.epoch, nonce) !in s.redeemer.spent
    ensures exists s' :: Reachable(env, s') && |s'.sends| == |s.sends| + 2
              && s'.sends[|s.sends|].nonce == s'.sends[|s.sends| + 1].nonce == nonce
              && s'.sends[|s.sends|].tkid == s.requests[r].tkid && s'.sends[|s.sends| + 1].tkid == s.requests[q].tkid
  {
    ServeReaches(env, s, r, nonce);
    var s1 := Served(s, r, s.requests[r].phase.entry.epoch, nonce);
    ServeReaches(env, s1, q, nonce);
    var s2 := Served(s1, q, s.requests[q].phase.entry.epoch, nonce);
    assert |s2.sends| == |s.sends| + 2;
  }

  /** A state in which two mails went out for one key id and nonce. */
  ghost predicate TwoMails(s: State, tkid: bytes, nonce: bytes)
  {
    exists i, j :: 0 <= i < j < |s.sends|
      && s.sends[i].tkid == s.sends[j].tkid == tkid && s.sends[i].nonce == s.sends[j].nonce == nonce
  }

  /** The overwrite is what it takes: wherever one is about to happen while
      another request can still present the same token, and the token verifies
      under both keys with both pairs unspent, the run goes on to two mails. */
  lemma OverwriteBuysTwoMails(env: Env, s: State, r: nat, q: nat, a: Answer, nonce: bytes)
    requires Reachable(env, s) && Overwrites(env, s, Fetch(r, a)) && q !in s.started
    requires var p := s.requests[r].phase;
             var cached, served := s.keys[s.requests[r].tkid], Resolved(env, s.requests[r].tkid, a).value;
             && ChallengeForDigest(env.lib, s.recent, p.token.challengeDigest) == Some(p.challenge)
             && env.lib.verifyToken(cached.key, p.token, p.challenge) == Some(nonce)
                  && (cached.epoch, nonce) !in s.redeemer.spent
             && env.lib.verifyToken(served.key, p.token, p.challenge) == Some(nonce)
                  && (served.epoch, nonce) !in s.redeemer.spent
    ensures exists s' :: Reachable(env, s') && TwoMails(s', s.requests[r].tkid, nonce)
  {
    var steps :| Run(env, Boot(env), steps) == s;
    RunKeepsBacked(env, steps);
    RunKeepsInv(env, Boot(env), steps);
    var p, t := s.requests[r].phase, s.requests[r].tkid;
    assert PhaseBacked(env, t, p);
    RunKeepsMails(env, steps);
    var mail := s.requests[r].mail;
    LookUpReaches(env, s, q, mail, p.token, p.challenge);
    var s1 := WithRequest(s, q, Request(mail, t, Keyed(p.token, p.challenge, s.keys[t])));
    var e := Resolved(env, t, a).value;
    FetchReaches(env, s1, r, a, e);
    var s2 := WithKey(s1, r, e);
    ServeBoth(env, s2, q, r, nonce);
  }

  // ------------------------------------------------------------------
  // Exactly when a key id and nonce can buy two mails
  // ------------------------------------------------------------------

  /** A fresh request for a key that is not cached: the window is refilled if need be, the rest is left alone. */
  lemma SeekReaches(env: Env, s: State, r: nat, mail: Mail, token: Token, ch: Challenge) returns (s': State)
    requires Reachable(env, s) && r !in s.started && Answers(env, token, ch) && token.tokenKeyId !in s.keys
    requires Addressed(env, mail)
    ensures Reachable(env, s') && s'.keys == s.keys && s'.redeemer.spent == s.redeemer.spent
    ensures s'.started == s.started[r := mail]
    ensures s'.requests == s.requests[r := Request(mail, token.tokenKeyId, Seeking(token, ch))]
  {
    var w := ChallengeReaches(env, s, ch);
    LookUpReaches(env, s.(recent := w), r, mail, token, ch);
    s' := WithRequest(s.(recent := w), r, Request(mail, token.tokenKeyId, Seeking(token, ch)));
  }

  /** Two overlapping lookups that resolve to different epochs lead to two mails. */
  lemma TwoEpochsBuyTwoMails(env: Env, mail: Mail, tkid: bytes, nonce: bytes, epoch: nat, epoch': nat)
    requires Addressed(env, mail)
    requires Buys(env, tkid, epoch, nonce) && Buys(env, tkid, epoch', nonce) && epoch != epoch'
    ensures exists s :: Reachable(env, s) && TwoMails(s, tkid, nonce)
  {
    var token: Token, ch, e :| token.tokenKeyId == tkid && BuysWith(env, epoch, nonce, token, ch, e);
    var token': Token, ch', e' :| token'.tokenKeyId == tkid && BuysWith(env, epoch', nonce, token', ch', e');
    assert Run(env, Boot(env), []) == Boot(env);
    var s1 := SeekReaches(env, Boot(env), 0, mail, token, ch);
    var s2 := SeekReaches(env, s1, 1, mail, token', ch');
    var a :| Resolved(env, tkid, a) == Some(e);
    var a' :| Resolved(env, tkid, a') == Some(e');
    FetchReaches(env, s2, 0, a, e);
    var s3 := WithKey(s2, 0, e);
    FetchReaches(env, s3, 1, a', e');
    var s4 := WithKey(s3, 1, e');
    ServeBoth(env, s4, 0, 1, nonce);
  }

  /** Two mails never share an epoch, so they take two. */
  lemma TwoMailsTakeTwoEpochs(env: Env, s: State, tkid: bytes, nonce: bytes) returns (epoch: nat, epoch': nat)
    requires Reachable(env, s) && TwoMails(s, tkid, nonce)
    ensures epoch != epoch' && Buys(env, tkid, epoch, nonce) && Buys(env, tkid, epoch', nonce)
  {
    var steps :| Run(env, Boot(env), steps) == s;
    RunKeepsBacked(env, steps);
    AtMostOncePrivilege(env, steps);
    var i, j :| 0 <= i < j < |s.sends|
      && s.sends[i].tkid == s.sends[j].tkid == tkid && s.sends[i].nonce == s.sends[j].nonce == nonce;
    var m, k := s.sends[i], s.sends[j];
    assert s == Run(env, Boot(env), steps);
    assert m.epoch != k.epoch || m.nonce != k.nonce;
    epoch, epoch' := m.epoch, k.epoch;
  }

  /** The gate can be served the key id under two epochs, with keys that both accept a token with that nonce. */
  ghost predicate TwoEpochs(env: Env, tkid: bytes, nonce: bytes)
  {
    exists epoch, epoch' :: epoch != epoch' && Buys(env, tkid, epoch, nonce) && Buys(env, tkid, epoch', nonce)
  }

  /** Two mails for one key id and nonce are reachable if and only if the gate
      can be served that key id under two epochs, with keys that both accept a
      token with that nonce, and there is a mail it would send at all. */
  lemma TwoMailsExactly(env: Env, tkid: bytes, nonce: bytes)
    ensures (exists s :: Reachable(env, s) && TwoMails(s, tkid, nonce))
       <==> TwoEpochs(env, tkid, nonce) && exists mail :: Addressed(env, mail)
  {
    if s :| Reachable(env, s) && TwoMails(s, tkid, nonce) {
      var epoch, epoch' := TwoMailsTakeTwoEpochs(env, s, tkid, nonce);
      assert TwoEpochs(env, tkid, nonce);
      var steps :| Run(env, Boot(env), steps) == s;
      RunKeepsMails(env, steps);
      assert MailOk(env, s, s.sends[0].request, s.sends[0].mail);
    } else if mail :| TwoEpochs(env, tkid, nonce) && Addressed(env, mail) {
      var epoch, epoch' :| epoch != epoch' && Buys(env, tkid, epoch, nonce) && Buys(env, tkid, epoch', nonce);
      TwoEpochsBuyTwoMails(env, mail, tkid, nonce, epoch, epoch');
    }
  }

  /** And a gate to which this can happen: a log that lists key id 7 under versions 1 and 2. */
  function LooseLib(): GateLib
  {
    GateLib(_ => [0], _ => Some(Token([0], [7], [])), (k: IssuerKey) => Some(k.material), (_, _, _) => Some([1]),
            (_, _, _) => true, _ => "07")
  }

  lemma SomeTokenBuysTwoMails()
    ensures exists env, s :: Reachable(env, s) && TwoMails(s, [7], [1])
  {
    var env := Env(LooseLib(), [], [0], KeyEntry(IssuerKey(0, [0]), 0), _ => true);
    var mail := Mail("a", "b", "");
    assert !IsWhitespace(mail.to[0]) && !IsWhitespace(mail.subject[0]);
    var key := IssuerKey(1, [7]);
    var token, ch := Token([0], [7], []), Challenge("", "", []);
    assert env.lib.parseAuthorization("") == Some(token);
    forall n | n == 1 || n == 2 ensures Buys(env, [7], n, [1]) {
      var a := Answer(Some(KtResponse([], [KeyRecord("07", n)], [])), Some(key));
      assert SameIgnoringCase("07", env.lib.hex([7]));
      assert Resolved(env, [7], a) == Some(KeyEntry(key, n));
      assert BuysWith(env, n, [1], token, ch, KeyEntry(key, n));
    }
    TwoEpochsBuyTwoMails(env, mail, [7], [1], 1, 2);
  }
}
