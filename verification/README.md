# LLM capture attestation: a verified model

This project models the parts of the cvm agent that decide whether a captured
LLM call counts as attested, how often it is logged and counted, and how many
mails a token buys, and proves what they promise over every input, every
interleaving and every run.

- `Common`, `Histories` — shared vocabulary, and facts about histories of steps that
  keep, lose and bring back something.
- `EatChain` — the two verifiers of nested EAT tokens (RFC 9711): the bounded
  recursive one and the loop of `cvm check`.
- `CaptureClaim` — contest events and manifests, the capture claim built on a
  verified receipt, and the event service's validation of an "attested" event.
- `Gateway` — start-up, the per-team hash chains under a lock, the events it emits.
- `EventService` — the ingest of the event service as an interleaving of its two
  lock sections, with failing appends and saves, duplicates, and crashes at any time.
- `CaptureLedger` — capture daemon, lossy network and event service together:
  retries, the pending file, replay passes.
- `RateLimiter` — the per-key limiter with persisted exponential backoff.
- `ToolGate`, `GateRuns`, `EmailIntent` — the gate object with its challenge window
  and key cache, its concurrent requests against an atomic redeemer, and the
  encoding behind the redemption context (sections 2.1 and 2.2 of RFC 9577).
- `Glob`, `PercentCodec` (sections 2.1 and 2.3 of RFC 3986), `Escaping` — the
  registry's glob matcher, the query codec and the markup escapers.
- `Sorting`, `Scoring`, `Cards`, `LedgerCards` — the scorers, the team card, the
  individual signals, the documents that share one event-log root, and what the
  cards show of the ledger.

`dafny verify dfyconfig.toml` verifies everything.

## How to read the model

Code that updates state in place is a class (`GatewayProcess`,
`EventServiceProcess`, `CaptureDaemon`, `ServiceRateLimiter`, `EatPassGate`) or a
method with a loop; each is proved equal to a function on values, and the
theorems are about runs of those functions. `StepsAreTheChecks`, `ReportIsARun`
and `ReplayIsARun` tie the two classes whose methods span several steps to the
state machines.

SHA-256, CBOR, base64, Ed25519, quote verification, token verification, the
transparency log's signature and `governor` are not modelled: they are
function-valued fields of `Crypto`, `EatLib` and `GateLib`, or inputs of a step.
Nothing is assumed of them except where a lemma names it: `InjectiveHash` (no
hash collisions), `Sound` (encodings round-trip, an honest signature verifies),
`HashText` (a hash is one line of text, never `sha256:empty`),
`HasPreviousAgrees` (`has_previous` says whether `decode_previous` has something
to decode). A token may chain forever, so the recursive verifier terminates by
its depth cap alone. Clocks, network outcomes and I/O failures are inputs.

## Where the code and an expectation part

- The recursive verifier admits chains of 17 stages, `cvm check` only 16
  (`WalkersAgree`); `SomeTokenSplitsTheWalkers` exhibits a token.
- A capture queued while a replay pass is under way can be lost although it was
  answered 202 (`OverlapLosesACapture`). An answered capture is in neither the
  service log nor the pending file exactly when a rewrite dropped a line it had not
  read, kept or seen logged, and no later queueing or commit brought the body back
  (`RewriteLosesExactly` for one step, `AnsweredIsLostExactly` over runs).
- A body can be logged twice (`UnsavedReloadDuplicates`): exactly when a crash found
  it logged with its hash not yet on disk and a commit of it got through later
  (`LogHoldsOnceExactly`). Index and log agree after a run exactly when every crash
  found the hash list saved (`LedgerIndexAgreement`), and only then does the
  service's count equal what the cards count (`CardsSumToLedger`).
- Bodies are deduplicated by their bytes, and `from_cbor` does not ask that a body
  be used up, so one signed event under two bodies is logged and counted twice
  without any crash (`TwoBodiesCountTwice`). The cards count every event once exactly
  when no body was logged twice and no two logged bodies decode to one event
  (`EventsCountedOnceExactly`).
- Sessions whose id is empty or has edge whitespace cannot be selected by name
  (`UnrequestableIsUnreachable`), so the signals add up to the card exactly when
  there are none (`SignalsCoverExactly`).
- A redemption context does not fix an intent with a NUL in a field
  (`EncodingUniqueExactly`).
- The event-log root depends on log order exactly when two different events of
  a team tie on all sort keys (`RootIgnoresOrderExactly`).
- A block can be forgotten before its end. Any key's call that finds the table
  over its limit prunes every session idle for more than 24 hours; a call for the key
  gets past its block exactly when its session was pruned and no later reload read
  the file before it was saved again (`BlockForgottenExactly`, `HeldBackExactly`).
  `ReloadBringsBlockBack` exhibits both outcomes.
- A token is worth one mail per (epoch, nonce). It buys one mail in all unless a
  key lookup overwrites a cached key with one of another epoch (`OneMailPerToken`),
  which takes two overlapping lookups; such an overwrite with a valid token leads to
  two mails (`OverwriteBuysTwoMails`). Two mails are reachable exactly when the gate
  can be served the key id under two epochs with keys that both accept a token with
  that nonce (`TwoMailsExactly`); `SomeTokenBuysTwoMails` exhibits a gate.

## Model

| member | source | states |
|---|---|---|
| `EatChain.StageCheckMeansStageOk` | src/llm_attested.rs:332-352 | a stage passes exactly when its Value X is the leaf's, its platform is known and accepted and its non-empty quote verifies against its own binding; otherwise it fails with the first fault in order |
| `EatChain.ChainUnique` | src/llm_attested.rs:353-366 | a token has at most one decoded chain |
| `EatChain.AcceptedChain` | src/llm_attested.rs:321-367 | acceptance from any depth exhibits a complete chain under the cap, good at every stage, and reports the leaf's facts and the stage count |
| `EatChain.GoodChainAccepted` | src/llm_attested.rs:321-367 | conversely every complete chain of good stages that ends under the cap is accepted |
| `EatChain.RecursiveVerifierCharacterised` | src/llm_attested.rs:321-367 | from depth 0 the verifier succeeds if and only if the decoded chain ends within 17 stages that are all good; the result is the leaf's platform, measurement and binding, with depth the stage count |
| `EatChain.RecursiveVerifierErrors` | src/llm_attested.rs:321-367 | it rejects with error e if and only if e is the fault of the first stage at which the walk cannot go on, or too-deep at the eighteenth |
| `EatChain.CheckQuoteAndChain` | src/main.rs:782-861 | the loop of `cvm check` computes the recursive outcome `CheckOutcome`, error and step number included |
| `EatChain.IterativeWalkerCharacterised` | src/main.rs:813-861 | that outcome is success if and only if the chain has at most 16 stages with constant Value X and verifying quotes, and then counts them |
| `EatChain.IterativeWalkerErrors` | src/main.rs:782-861 | it rejects with error e if and only if e is the leaf's own fault, or that of the first step behind verified stages that cannot be taken, with its number |
| `EatChain.WalkersAgree` | src/main.rs:782-861 | the two verifiers accept the same chains of up to 16 stages, up to the accepted-platform and non-empty-quote policy, with the same depth; the loop rejects every chain of 17 |
| `EatChain.WalkersPartAtSeventeen` | src/main.rs:848-861 | on every good chain of exactly 17 stages the recursive verifier accepts and the loop rejects |
| `EatChain.SomeTokenSplitsTheWalkers` | src/main.rs:848-861 | such a token exists |
| `EatChain.OwnLabelAdmits` | src/llm_attested.rs:369-392 | a platform's own label in the accepted list admits that platform and no other |
| `EatChain.AdmittedExactly` | src/llm_attested.rs:369-392 | a platform is admitted if and only if some label, whitespace around it aside, spells one of its names, in either case and with underscores or dashes |
| `CaptureClaim.FindPath` | src/llm_attested.rs:167-178 | finds a listed path with both names, or there is none |
| `CaptureClaim.InsertRaEvidence` | src/llm_attested.rs:260-293 | the fourteen inserts overlay the evidence with the claim's entries and leave every other key alone |
| `CaptureClaim.EvidenceReadsBack` | src/llm_attested.rs:260-293 | the whole claim, depth included, can be read back from the evidence entry by entry, and entries under other names stay |
| `CaptureClaim.ClaimBuiltExactly` | src/llm_attested.rs:202-258 | a claim is built if and only if there are grounds (listed path, advertised method, receipt with the manifest's hash and Value X, chain of at most 17 good stages); every field of it is fixed: the path with its requirement, the manifest's hash, profile, receipt hash and key, the leaf's verified facts and the stage count |
| `CaptureClaim.ClaimRefusedExactly` | src/llm_attested.rs:202-258 | when each of the builder's own refusals (path, method, receipt hash, Value X) is returned, exactly and in that order of precedence |
| `CaptureClaim.ValueXMatchExactly` | src/llm_attested.rs:394-399 | a text matches a Value X if and only if it is its hex digits in either case behind any number of prefixes, with whitespace around |
| `CaptureClaim.VerifiesExactly` | src/llm_attested.rs:681-692 | an event verifies if and only if its signature field decodes to 64 bytes that verify for the event with that field blank |
| `CaptureClaim.SignatureBindsEvent` | src/llm_attested.rs:669-692 | if the signature verifies for one message only, no other event verifies under the same key with it |
| `CaptureClaim.PublishesExactly` | src/llm_attested.rs:417-430 | a JWK yields a key if and only if it is an Ed25519 one whose 32 bytes decode to a valid key |
| `CaptureClaim.DecodersExactly` | src/llm_attested.rs:651-667 | an event or manifest is taken from a body if and only if it decodes to one of the known version and profile |
| `CaptureClaim.ValidationIsSound` | src/bin/llm-event-service.rs:717-798 | an "attested" event that passes is attested by the very manifest and receipt that were fetched: it names the hash of the manifest's encoding, its 64-byte signature verifies under the key the manifest publishes, and the receipt grounds the claim |
| `CaptureClaim.ValidationIsComplete` | src/bin/llm-event-service.rs:717-798 | conversely an event so attested passes when the fetches return that manifest and receipt |
| `Gateway.StartsExactly` | src/bin/llm-gateway.rs:129-157 | a gateway starts if and only if it does not call itself attested, or has a receipt, a real Value X and grounds for its claim |
| `Gateway.StartedIdentity` | src/bin/llm-gateway.rs:104-157 | a started gateway has the configuration, the manifest that publishes it field by field with its own key, that manifest's hash, and a claim exactly if it calls itself attested |
| `Gateway.GatewayProcess.BuildLlmEvent` | src/bin/llm-gateway.rs:377-476 | the locked section takes the team's entry, signs, appends and advances; an event is returned exactly if the append worked, is the last in the log and carries its request; a failed append does not advance |
| `Gateway.LogCarriesRequests` | src/bin/llm-gateway.rs:377-476 | the log of every run is, position by position, the requests whose append worked: each event has its request's ids, times, session, subject, body hashes and usage with latency and tool calls, the configuration's names, the provider's usage exactly if reported, and the claim |
| `Gateway.TokensConserved` | src/bin/llm-gateway.rs:377-476 | the tokens in the log are the tokens reported for the appended requests |
| `Gateway.LockedKeepsChains` | src/bin/llm-gateway.rs:435-476 | one locked section keeps the chain map equal to the summary of every team's log |
| `Gateway.ChainIntegrity` | src/bin/llm-gateway.rs:435-476 | under every interleaving each team's logged events have indices 0..n-1, start from ZERO_HASH and name the previous event's hash, and the map holds the head |
| `Gateway.HeadDeterminesHistory` | src/bin/llm-gateway.rs:435-476 | with an injective hash two non-empty chains with one head hash are equal, event by event |
| `Gateway.SignedEventVerifies` | src/llm_attested.rs:669-692 | a signed event verifies under the signer's public key, the signature field being blanked on both sides |
| `Gateway.NewEventMatchesClaim` | src/llm_attested.rs:295-319 | an event built under a claim matches that claim |
| `Gateway.EmittedEventsAcceptable` | src/bin/llm-gateway.rs:129-157 | every event in the log of every run of a started gateway decodes, verifies and passes the service's validation against that gateway's own manifest and receipt |
| `EventService.EventServiceProcess.IngestCommit` | src/bin/llm-event-service.rs:668-714 | the second lock section: new store, log and saved state, exactly when it answers 202, and the duplicate flag and count of the reply |
| `EventService.CommitKeepsIndex` | src/bin/llm-event-service.rs:676-702 | a commit keeps the index of every event id free of repetitions, counted, and backed by logged bodies, and keeps it in agreement with the log or apart from it, on every append and save outcome |
| `EventService.StepKeepsInv` | src/bin/llm-event-service.rs:619-702 | every step of every request, and a crash, keeps that, validated logs and acknowledged-implies-logged |
| `EventService.LedgerIndexAgreement` | src/bin/llm-event-service.rs:668-702 | after every interleaving with crashes the hash list has no repetition, names only logged bodies and has the saturating count as length; it is the hashes of the log bodies in order if and only if every crash found it saved, and then no body is logged twice |
| `EventService.AttestedSoundness` | src/bin/llm-event-service.rs:659-666 | in every run every logged body is non-empty and decodes to an event of the known version and profile, and one that says "attested" is signed under the key of a manifest served at the manifest URL of the contest's record, with a receipt served at that manifest's receipt URL that grounds its claim |
| `EventService.LogsAreOfContests` | src/bin/llm-event-service.rs:2415-2432 | only contests that were created, under ids of ASCII letters, digits, underscores and dashes, get a log |
| `EventService.ValidEventIdExactly` | src/bin/llm-event-service.rs:2415-2421 | an id can name a log file if and only if it consists of those characters |
| `EventService.AcceptedIsLogged` | src/bin/llm-event-service.rs:676-714 | a body answered 202 is in the log, whatever crashed since |
| `EventService.ReloadKeepsIndexExactly` | src/bin/llm-event-service.rs:2395-2402 | after a crash list and log agree if and only if they did before and the disk had the whole list |
| `EventService.AgreementSurvivesExactly` | src/bin/llm-event-service.rs:689-702 | over a whole run they agree if and only if every crash found the list saved |
| `EventService.IngestCommits` | src/bin/llm-event-service.rs:619-714 | a valid request to a known event, served alone, logs its body unless its hash is listed, and with the save working is answered 202 |
| `EventService.ResendAfterCrashDuplicates` | src/bin/llm-event-service.rs:689-702 | whenever a crash loses the hash of a logged body, sending it again logs it again |
| `EventService.UnsavedReloadDuplicates` | src/bin/llm-event-service.rs:689-702 | a run from the start, through arrival, lookup, validation, commit, crash and resend, that logs one body twice |
| `EventService.StepOnLog` | src/bin/llm-event-service.rs:676-702 | for every step: the log and the list of an id each grow by the committed body and its hash exactly when the hash is not listed, a crash sets the list to the saved one, and nothing else moves either |
| `EventService.LogHoldsOnceExactly` | src/bin/llm-event-service.rs:676-702 | over every run the log of an id holds a body more than once if and only if a crash found it logged with its hash not on disk and a later commit of it got through |
| `CaptureLedger.CaptureDaemon.SendEventWithBackoff` | src/bin/llm-capture-daemon.rs:236-253 | succeeds exactly if one of three attempts does, at the first one that does, after sleeps 200, 400, 800 ms for the failures |
| `CaptureLedger.CaptureDaemon.CaptureReport` | src/bin/llm-capture-daemon.rs:153-199 | logs first, queues exactly when no attempt succeeded, and errs exactly when the log or queue append fails |
| `CaptureLedger.CaptureDaemon.ReplayPendingEvents` | src/bin/llm-capture-daemon.rs:285-320 | the file becomes the undelivered lines in order, the count the others; a failed rewrite is an error and changes nothing |
| `CaptureLedger.ReportIsARun` | src/bin/llm-capture-daemon.rs:153-199 | the steps of a capture taken in a row have the effect of `CaptureReport` |
| `CaptureLedger.ReplayIsARun` | src/bin/llm-capture-daemon.rs:285-320 | the steps of a pass taken in a row have the effect of `ReplayPendingEvents` |
| `CaptureLedger.StepKeepsInv` | src/bin/llm-capture-daemon.rs:153-320 | every step keeps each answered capture in the daemon's log, and each line a pass has read in the file and either acknowledged or kept |
| `CaptureLedger.ExactlyOnceEffect` | src/bin/llm-capture-daemon.rs:153-320 | over every run with loss, retries, replays and crashes of the service: an answered capture is in the daemon's log; it is in the service log or the pending file if and only if no rewrite dropped it for good, so always without overlap; the service log holds each body at most once if and only if no crash lost its hash before a later commit of it, so always if every crash found the list saved |
| `CaptureLedger.RewriteLosesExactly` | src/bin/llm-capture-daemon.rs:289-318 | for every step and body: the body is in the service log or pending file afterwards if and only if it was and no rewrite drops it (appended after the read, not kept, not logged), or the step queues or commits it |
| `CaptureLedger.AnsweredIsLostExactly` | src/bin/llm-capture-daemon.rs:153-320 | after a run an answered capture is in neither place if and only if a rewrite dropped it and nothing brought it back |
| `CaptureLedger.OverlapLosesACapture` | src/bin/llm-capture-daemon.rs:289-318 | a reachable state in which an answered capture is in neither place |
| `CaptureLedger.GatewayEventIsLedgered` | src/bin/llm-event-service.rs:619-714 | whatever a started gateway emits in any run is answered 202 and in the log of a service that fetches that gateway's documents |
| `RateLimiter.BackoffArithmetic` | src/llm_attested_net.rs:35-39 | for the policy `with_backoff(base, max)` builds, the saturating shift is min(base·2^min(v-1,16), max) over the integers, with base at least 1 and max at least base, in [1, max] and monotone in v |
| `RateLimiter.DefaultWaits` | src/llm_attested_net.rs:26-33 | the default policy waits 1, 2, 4, 8, 16, 32 and then 60 seconds |
| `RateLimiter.RetryAfterIsCeiling` | src/llm_attested_net.rs:270-272 | the exact ceiling in seconds, at least 1 |
| `RateLimiter.ServiceRateLimiter.Check` | src/llm_attested_net.rs:130-217 | pruning, entry, policy replacement, block test, governor and save have the effect of `Checked`, decision included |
| `RateLimiter.CheckExactly` | src/llm_attested_net.rs:130-205 | a call before the end of the block is denied what is left and changes nothing else; an admitted call leaves max(v-1, 0) violations; a governor denial leaves min(v+1, 20), waits the longer of the backoff for them and the governor's wait, and blocks for that long |
| `RateLimiter.CheckLeavesOthers` | src/llm_attested_net.rs:138-141 | a call leaves other sessions alone, or prunes them exactly if the table is over its limit and they are idle for over 24 hours |
| `RateLimiter.CheckSavesExactly` | src/llm_attested_net.rs:199-217 | a call saves after every denial, and otherwise exactly if something changed and the last save is five seconds old; it errs exactly if that save fails |
| `RateLimiter.ViolationsAccumulate` | src/llm_attested_net.rs:183-196 | over a run n governor denials of a key with no admitted call, pruning or reload of another count between them leave min(v+n, 20) violations |
| `RateLimiter.ServiceRateLimiter.Save` | src/llm_attested_net.rs:219-249 | a successful save writes the snapshot and clears the flags, a failed one changes nothing |
| `RateLimiter.ServiceRateLimiter.Load` | src/llm_attested_net.rs:90-128 | every persisted session comes back with its block and violations under the default policy |
| `RateLimiter.LoadReadsSave` | src/llm_attested_net.rs:90-128 | loading what was saved brings back every session's block, violations and last-seen time, and no other session |
| `RateLimiter.DenialBlocks` | src/llm_attested_net.rs:160-205 | a denial that is returned is in memory and on disk, blocked until now plus its retry time |
| `RateLimiter.StepKeepsBlock` | src/llm_attested_net.rs:130-205 | any call, save or reload before the end of a block keeps it and the violations, in memory and on disk |
| `RateLimiter.BackoffHonoured` | src/llm_attested_net.rs:130-205 | after a returned denial, through any run on a monotone clock, every call for the key before the end is denied with what is left and raises nothing |
| `RateLimiter.BlockForgottenExactly` | src/llm_attested_net.rs:138-141 | after any run of calls, flushes and reloads in which the key's own calls are held back, with saves failing or not, a call before the end of a block gets past it if and only if some call of the run, or this one, found the table over its limit with the session idle too long, and every later reload came after a save |
| `RateLimiter.HeldBackExactly` | src/llm_attested_net.rs:130-205 | over a whole run all calls for the key before the end of the block are held back if and only if none of them comes when the block is forgotten |
| `RateLimiter.CopiesThroughRun` | src/llm_attested_net.rs:90-249 | along such a run memory and file each keep block and violations, whenever they were last seen, or have lost the session, each exactly when the pruning, save and reload steps say |
| `RateLimiter.PruneOutlivesBlock` | src/llm_attested_net.rs:138-141 | from an empty file, with a backoff above 24 hours, another key's call prunes a blocked key and fails to save, so memory forgets the block and the file keeps it |
| `RateLimiter.ReloadBringsBlockBack` | src/llm_attested_net.rs:90-128 | there the key's next call is allowed with the block still on, and denied again after a reload |
| `RateLimiter.DenialWaitsAtLeastBackoff` | src/llm_attested_net.rs:183-196 | a governor denial waits at least the backoff of the violations it leaves, and at least what governor asked |
| `RateLimiter.ViolationsStayBounded` | src/llm_attested_net.rs:183-196 | from a state file with at most 20 violations per key every run stays there |
| `ToolGate.WindowIsLast` | src/tool_gate/origin.rs:143-150 | after any history the window is the last min(n,128) challenges in order |
| `ToolGate.LookupSucceedsExactly` | src/tool_gate/origin.rs:152-159 | a digest is found exactly when one of those challenges has it |
| `ToolGate.LookupFindsFirst` | src/tool_gate/origin.rs:152-159 | and what is found is the oldest one in the window |
| `ToolGate.EatPassGate.RegisterChallenge` | src/tool_gate/origin.rs:143-150 | push and drain keep the window equal to the tail of the history |
| `ToolGate.EatPassGate.Bootstrap` | src/tool_gate/origin.rs:56-98 | the cache starts with the bootstrap key under its own key id |
| `ToolGate.EatPassGate.KeyFor` | src/tool_gate/origin.rs:192-207 | a cached key, or one resolved through the log and then cached; the cache stays sound |
| `ToolGate.EatPassGate.VerifyAndSpend` | src/tool_gate/origin.rs:161-190 | the outcome is the checks' refusal if there is one; otherwise the nonce exactly if a 2xx status arrived, DoubleSpend exactly on a 409, RedeemerDown on anything else or no reply |
| `ToolGate.VerdictPassesExactly` | src/tool_gate/origin.rs:161-182 | the checks pass if and only if the header carries a token for the digest asked for that answers the oldest challenge with it and verifies under the cached or resolved key; they yield that key's epoch and the nonce |
| `ToolGate.VerdictRefusesExactly` | src/tool_gate/origin.rs:161-182 | when each refusal is returned, in order of precedence |
| `ToolGate.SameIgnoringCaseExactly` | src/tool_gate/origin.rs:227 | key ids are compared letter by letter, case aside |
| `ToolGate.ResolveIsSound` | src/tool_gate/origin.rs:209-246 | a resolved key hashes to its id and came with a verified log whose first record for the id gives its epoch |
| `ToolGate.ResolveSucceedsExactly` | src/tool_gate/origin.rs:209-246 | a key is resolved if and only if a verified log under the pinned log key lists its id and the issuer serves a key with that id |
| `GateRuns.CacheStaysSound` | src/tool_gate/origin.rs:192-246 | in every run every cached key hashes to its map key, and all but the bootstrap one came from a verified log with its epoch |
| `GateRuns.StepsAreTheChecks` | src/bin/tool-gate.rs:245-283 | the steps of one request before the spend, refusals included, give the verdict, epoch and nonce of `VerifyAndSpend` and touch neither the spent set nor the mailer |
| `GateRuns.LoneRequestSendsExactly` | src/bin/tool-gate.rs:245-302 | a request served alone sends its mail if and only if it has recipient and subject, the recipient resolves, its token passes and its (epoch, nonce) is unspent |
| `GateRuns.StepKeepsInv` | src/bin/tool-gate.rs:232-353 | every step keeps grants unique and every send backed by a grant to that request |
| `GateRuns.AtMostOncePrivilege` | src/bin/tool-gate.rs:279-352 | in every interleaving, with the gate going by its own reading of the status that reaches it, each (epoch, nonce) yields at most one mail, and every mail follows a redeem of that pair granted to that request |
| `GateRuns.SentMailIsTheOneAsked` | src/bin/tool-gate.rs:245-296 | every mail sent is the one its request asked for, unchanged, with a subject and a recipient that resolves |
| `GateRuns.OtherOutcomeIsFinal` | src/tool_gate/origin.rs:248-265 | after any redeemer outcome but success, a lost reply included, the request never sends |
| `GateRuns.OneMailPerToken` | src/tool_gate/origin.rs:192-207 | if no lookup of the run overwrites a cached key with one of another epoch, no two mails share key id and nonce |
| `GateRuns.AgreeingLogNeverOverwrites` | src/tool_gate/origin.rs:209-246 | a log that lists every key id under one version leaves no room for an overwrite |
| `GateRuns.OverwriteBuysTwoMails` | src/tool_gate/origin.rs:192-207 | wherever an overwrite is enabled and the token is still presentable, verifies under both keys and is unspent under both epochs, the run goes on to two mails |
| `GateRuns.TwoMailsExactly` | src/tool_gate/origin.rs:161-207 | two mails for one key id and nonce are reachable if and only if the gate can be served the key id under two epochs with keys that both accept a token with that nonce, and there is a mail it would send at all |
| `GateRuns.SomeTokenBuysTwoMails` | src/tool_gate/origin.rs:192-207 | a gate and a reachable state with two such mails |
| `EmailIntent.RedemptionContext` | src/tool_gate/intent.rs:13-28 | feeding the hasher in pieces hashes the one encoding |
| `EmailIntent.ContextDeterminesIntent` | src/tool_gate/intent.rs:13-28 | with an injective hash a context names one intent among those with NUL-free recipient and subject |
| `EmailIntent.EncodingReadsBack` | src/tool_gate/intent.rs:13-28 | such an intent can be read back from what is hashed: domain, nonce, recipient, subject, body |
| `EmailIntent.EncodingUniqueExactly` | src/tool_gate/intent.rs:13-28 | among all intents, one is alone with its encoding if and only if recipient, subject and body are NUL-free |
| `Glob.GlobMatch` | src/registry.rs:569-596 | true exactly when the value is the pattern with some run of bytes at every star |
| `Glob.CollapseKeepsMeaning` | src/registry.rs:569-596 | collapsing repeated stars changes no match |
| `Glob.CollapseLeavesNoRuns` | src/registry.rs:569-596 | a collapsed pattern has no two stars in a row |
| `Glob.StarFreeIsLiteral` | src/registry.rs:569-596 | a star-free pattern matches only itself |
| `PercentCodec.UrlEncodeComponent` | src/bin/llm-event-service.rs:2279-2290 | the loop computes the byte-by-byte encoding |
| `PercentCodec.PercentDecode` | src/bin/llm-event-service.rs:2292-2316 | the index loop computes the left-to-right decoding, malformed escapes and the leading-plus hex form included |
| `PercentCodec.DecodeInvertsEncode` | src/bin/llm-event-service.rs:2279-2316 | decoding undoes encoding on every byte string |
| `PercentCodec.EncodeByteExactly` | src/bin/llm-event-service.rs:2279-2290 | an unreserved byte stands for itself, any other is a percent sign and its two hex digits in upper case |
| `PercentCodec.UnreservedExactly` | src/bin/llm-event-service.rs:2282-2285 | the unreserved bytes are the ASCII letters and digits and the four marks |
| `PercentCodec.DecodeInvertsFormEncode` | src/bin/llm-event-service.rs:2292-2316 | the decoder also reads back the form encoding, with plus signs for spaces |
| `PercentCodec.StrayBytesStay` | src/bin/llm-event-service.rs:2300-2314 | a percent sign that no hex pair follows, and any other byte but the plus sign, stands for itself |
| `PercentCodec.EncodedIsClean` | src/bin/llm-event-service.rs:2279-2290 | an encoding holds unreserved bytes and percent signs only, hence no separator |
| `PercentCodec.QueryRoundTrip` | src/bin/llm-event-service.rs:1856-1861 | the agent a link is built for is the one `query_param` reads from it, for every agent and every base URL without a question mark; without an agent it reads none |
| `PercentCodec.QueryReadsFirst` | src/bin/llm-event-service.rs:2268-2277 | of any list of parameters behind a path the value of the first with the name is read, wherever it stands, and none if there is none |
| `PercentCodec.BareNameReadsEmpty` | src/bin/llm-event-service.rs:2271 | a name without an equals sign has the empty value |
| `Escaping.SequentialIsOnePass` | src/bin/llm-event-service.rs:2461-2467 | the successive replaces equal one substitution per character |
| `Escaping.UnescapeInvertsEscape` | src/bin/llm-event-service.rs:2256-2258 | an XML reader recovers the text |
| `Escaping.EscapersAreInjective` | src/bin/llm-event-service.rs:2461-2467 | both escapers are injective |
| `Escaping.NoRawMarkup` | src/bin/llm-event-service.rs:2256-2258 | no angle bracket or quote is left, and every ampersand starts an entity |
| `Escaping.HtmlLeavesOnlyApostrophes` | src/bin/llm-event-service.rs:2461-2467 | the HTML escaper leaves no raw markup character but the apostrophe, and every ampersand starts an entity |
| `Escaping.MetadataRoundTrip` | src/bin/llm-event-service.rs:2206-2218 | reading the metadata element recovers the exact JSON, its profile, and the hash of that JSON |
| `Scoring.TotalsByTeam` | src/llm_attested.rs:783-789 | exactly the teams with a call, each with the sum of its calls' tokens |
| `Scoring.ScoreMinTokens` | src/llm_attested.rs:714-730 | every calling team once, ranks 1..n; of two reports the earlier has fewer tokens, or equally many and the lexicographically smaller id; all eligible |
| `Scoring.ScoreMaxTokensUnderBudget` | src/llm_attested.rs:732-762 | every calling team once, ranks 1..n; teams within budget first; on either side the earlier report has more tokens, or equally many and the smaller id; eligible exactly if the score is within budget |
| `Scoring.EligibleFirst` | src/llm_attested.rs:732-762 | no ineligible team stands before an eligible one |
| `Scoring.ScoresSumToTokens` | src/llm_attested.rs:714-789 | the scores sum to the tokens of all calls |
| `Scoring.RankingForgetsOrder` | src/llm_attested.rs:714-789 | permuting the events changes no place, score or rank |
| `Cards.TeamCard` | src/bin/llm-event-service.rs:1462-1519 | the counting loop computes all eight tallies, the sums and the token range of the team's sorted events, and their root |
| `Cards.SelectionsAgree` | src/bin/llm-event-service.rs:1463-1473 | the card's own filter and comparator select and order as `team_events` does |
| `Cards.TeamEventsInOrder` | src/bin/llm-event-service.rs:1881-1893 | the selection is the team's events, each as often as the log has it, by index, then start time, then id |
| `Cards.TallyCounts` | src/bin/llm-event-service.rs:1486-1509 | a tally has exactly the tags that occur as keys, each with the number of events that carry it |
| `Cards.CardCountsFields` | src/bin/llm-event-service.rs:1486-1509 | the counts of capture methods, assurance labels and sessions, value by value |
| `Cards.CardCountsEntries` | src/bin/llm-event-service.rs:1491-1505 | the counts of enforcement modes, attestation profiles, platforms, models and providers, entry by entry |
| `Cards.CallsExactly` | src/bin/llm-event-service.rs:1755-1766 | the calls are one for each model call and what the other events report |
| `Cards.CardCountsConserve` | src/bin/llm-event-service.rs:1462-1519 | capture methods, assurance labels and sessions each sum to the captured events |
| `Cards.LabelCountsConserve` | src/bin/llm-event-service.rs:1491-1505 | each optional label's counts sum to the events that carry it |
| `Cards.CardRangeIsTight` | src/bin/llm-event-service.rs:1516-1517 | the token range bounds every event of the team and both ends occur |
| `Cards.IndividualSignal` | src/bin/llm-event-service.rs:1621-1671 | count, totals, today's totals, tallies and root of the selected session |
| `Cards.SignalCountsFields` | src/bin/llm-event-service.rs:1654-1671 | what each of the signal's tallies counts |
| `Cards.TodayIsAPart` | src/bin/llm-event-service.rs:1648-1663 | today's totals are those of the events completed no earlier than the start of the day |
| `Cards.DefaultSessionIsTheLast` | src/bin/llm-event-service.rs:1627-1635 | without a name, or with a blank one, the signal is about the session of the team's last event |
| `Cards.SignalsAgainstCard` | src/bin/llm-event-service.rs:1621-1671 | over distinct requestable ids the signals fall short of the card by exactly the events of the other sessions |
| `Cards.SignalsSumToCard` | src/bin/llm-event-service.rs:1621-1671 | if the ids cover the team's sessions, tokens and calls of the signals sum to the card's |
| `Cards.SignalsCoverExactly` | src/bin/llm-event-service.rs:1621-1671 | the signals of all requestable ids account for every event if and only if every session id is non-empty and trimmed |
| `Cards.UnrequestableIsUnreachable` | src/bin/llm-event-service.rs:1627-1634 | no request by name selects a session whose id is empty or has edge whitespace |
| `Cards.OneRoot` | src/bin/llm-event-service.rs:1895-2017 | card, proof, receipts and credential carry one root, which the receipt bodies hash to |
| `Cards.ReceiptsDecode` | src/bin/llm-event-service.rs:1931-1961 | the receipts are the team's events in order: each names its event, hashes to the hash the proof lists, and decodes to the event |
| `Cards.RootDeterminesHashes` | src/bin/llm-event-service.rs:1874-1879 | the root determines the ordered hash list |
| `Cards.RootDeterminesEvents` | src/bin/llm-event-service.rs:1863-1879 | and the ordered events |
| `Cards.RootIgnoresOrderExactly` | src/bin/llm-event-service.rs:1881-1893 | the root ignores log order if and only if no two different events of the team share index, start time and id |
| `LedgerCards.LoadCapturedEvents` | src/bin/llm-event-service.rs:2434-2459 | the loop yields the decodable bodies of the log in order, nothing for a missing file, an error for an id that cannot name one |
| `LedgerCards.LoadedConcat` | src/bin/llm-event-service.rs:2447-2458 | loading is body by body, so an undecodable body costs no other one |
| `LedgerCards.CardCountsLedger` | src/bin/llm-event-service.rs:2434-2459 | after every run a card computed from the ledger counts the team's logged bodies, each once if every crash found the list saved |
| `LedgerCards.CardsSumToLedger` | src/bin/llm-event-service.rs:2434-2459 | captured events summed over the teams are the log bodies; the service's count never exceeds them and, below saturation, equals them if and only if every crash found the list saved |
| `LedgerCards.EventsCountedOnceExactly` | src/bin/llm-event-service.rs:2434-2459 | the cards computed from the ledger count every event of their team once if and only if no body was committed again after a crash lost its hash and no two logged bodies decode to one event |
| `LedgerCards.TwoBodiesCountTwice` | src/llm_attested.rs:651-653 | two bodies that decode alike are both logged without a crash, and the event is loaded twice |

## Left out

- Reading usage, model and tool calls from the JSON of a model request and its answer: their values are inputs of the gateway's step.
- HTTP, TLS, SMTP, vsock, ACME, argument parsing, HTML pages, QR drawing, the browser extension and shell scripts: I/O or presentation.
- Partial file writes, and the base64 line framing of the log files: a log or pending file is a sequence of bodies.
- A gateway restart: it starts fresh chains, so the theorems are about one process.
- Overflow of `event_index`, of token sums and of the rank's cast to u32: these are unbounded integers here. The event count, backoff and clock arithmetic saturate as in the code.
- The score explanations: constant text.
- `to_cbor` failing: encoding is total, so the fallbacks for a failed event hash do not occur.
- The card's visibility switches, the links, and the signal's labels about its latest event: presentation.
- Aliasing in `ContestEvent::sign` and `insert_capture_ra_evidence`: the event and its evidence are values.
- The standard library's sort is a stable insertion sort; the order in which a map yields its entries is arbitrary.
- Defaulting in `CaptureReport`, `llmattest` probing and path selection: easy branch-by-branch facts.
- `Registry::load`, `lookup` and `check_sidecar`, and the binding steps of `cmd_run`: mostly file handling around external cryptography.
- A bound on limiter sessions: pruning removes only idle entries, so `max_sessions` is not an invariant.
- Equality of the mail sent with the challenged intent: `email_send` does not recompute the context.
- The legacy JSON `cvm verify`, and idempotence of `normalize_value_x`, which does not hold.
