/** The event service: it validates, deduplicates by body hash, appends to one
    log per event id and counts.  An ingest takes the store lock twice, so a
    run is an interleaving of the small steps below. */
module EventService {
  import opened Common
  import opened EatChain
  import opened CaptureClaim
  import Histories

  datatype EventRecord = EventRecord(eventId: string, name: string, gatewayManifestUrl: string)

  /** The persisted store: known events, per event the body hashes in order, and the count. */
  datatype Store = Store(
    events: map<string, EventRecord>,
    captured: map<string, seq<string>>,
    counts: map<string, nat>)

  /** Where an ingest request stands. */
  datatype Phase =
    | Decoded(eventId: string, body: bytes)
    | Looked(eventId: string, body: bytes, record: EventRecord)
    | Validated(eventId: string, body: bytes)

  datatype State = State(
    store: Store,                        // in memory, behind the lock
    disk: Store,                         // as last saved
    logs: map<string, seq<bytes>>,       // the append-only log files
    inflight: map<nat, Phase>,           // requests between their two lock sections
    accepted: set<(string, bytes)>,      // history: requests answered 202
    known: set<EventRecord>,             // history: records created
    served: set<(string, bytes)>)        // history: URL and body of the responses fetched

  datatype Step =
    | CreateEvent(record: EventRecord, saveOk: bool)
    | Arrive(request: nat, eventId: string, body: bytes)
    | LookUp(request: nat)
    | Validate(request: nat, fetched: Fetched)
    | Commit(request: nat, appendOk: bool, saveOk: bool)
    | Crash                              // at any time; the process comes back from disk

  const EMPTY_STORE := Store(map[], map[], map[])
  const INITIAL := State(EMPTY_STORE, EMPTY_STORE, map[], map[], {}, {}, {})

  function HashesOf(store: Store, id: string): seq<string> { GetOr(store.captured, id, []) }
  function CountOf(store: Store, id: string): nat { GetOr(store.counts, id, 0) }
  function LogOf(s: State, id: string): seq<bytes> { GetOr(s.logs, id, []) }

  /** Only such ids may name a log file. */
  predicate ValidEventId(id: string)
  {
    forall i :: 0 <= i < |id| ==>
      'a' <= id[i] <= 'z' || 'A' <= id[i] <= 'Z' || '0' <= id[i] <= '9' || id[i] == '_' || id[i] == '-'
  }

  /** The characters an event id may have. */
  predicate IdCharacter(c: char) { c in LOWER || c in UPPER || c in DIGITS || c in "_-" }

  /** An id names a log file exactly when it is made of those characters. */
  lemma ValidEventIdExactly(id: string)
    ensures ValidEventId(id) <==> forall i :: 0 <= i < |id| ==> IdCharacter(id[i])
  {
    forall i | 0 <= i < |id|
      ensures IdCharacter(id[i]) <==>
                'a' <= id[i] <= 'z' || 'A' <= id[i] <= 'Z' || '0' <= id[i] <= '9' || id[i] == '_' || id[i] == '-'
    {
      LowerExactly(id[i]);
      UpperExactly(id[i]);
      DigitsExactly(id[i]);
    }
  }

  /** The tail of `ingest_event`, under the lock: dedupe, append, push, count, save. */
  function Committed(c: Crypto, s: State, id: string, body: bytes, appendOk: bool, saveOk: bool): State
  {
    if id !in s.store.events then s
    else
      var hash := c.sha256(body);
      var hashes := HashesOf(s.store, id);
      var touched := s.store.(captured := s.store.captured[id := hashes]);
      if hash in hashes then Saved(s.(store := touched), id, body, saveOk)
      else if !appendOk || !ValidEventId(id) then s.(store := touched)
      else
        var store := touched.(
          captured := touched.captured[id := hashes + [hash]],
          counts := touched.counts[id := if id in touched.counts then SaturatingAdd(touched.counts[id], 1) else 1]);
        Saved(s.(store := store, logs := s.logs[id := LogOf(s, id) + [body]]), id, body, saveOk)
  }

  /** `save_store` and the reply: 202 only if the save succeeded. */
  function Saved(s: State, id: string, body: bytes, saveOk: bool): State
  {
    if saveOk then s.(disk := s.store, accepted := s.accepted + {(id, body)}) else s
  }

  function Created(s: State, record: EventRecord, saveOk: bool): State
  {
    var id := record.eventId;
    var store := Store(
      s.store.events[id := record],
      s.store.captured[id := HashesOf(s.store, id)],
      s.store.counts[id := CountOf(s.store, id)]);
    var s' := s.(store := store, known := s.known + {record});
    if saveOk then s'.(disk := store) else s'
  }

  /** The responses of the two fetches, under the URLs they were asked from:
      the record's manifest URL, then the receipt URL of the manifest it served. */
  function Responses(c: Crypto, record: EventRecord, fetched: Fetched): set<(string, bytes)>
  {
    if fetched.manifest.None? then {}
    else
      var first := (record.gatewayManifestUrl, fetched.manifest.value);
      var manifest := ManifestFromCbor(c, fetched.manifest.value);
      if manifest.None? || fetched.receipt.None? then {first}
      else {first, (manifest.value.trustPolicy.cvmReceiptUrl, fetched.receipt.value)}
  }

  /** A validated request moves on, a rejected one ends; either way the responses are history. */
  function Judged(s: State, r: nat, responses: set<(string, bytes)>, passed: bool): State
    requires r in s.inflight
  {
    var p := s.inflight[r];
    s.(served := s.served + responses,
       inflight := if passed then s.inflight[r := Validated(p.eventId, p.body)] else s.inflight - {r})
  }

  /** The validation between the two lock sections. */
  function Validation(c: Crypto, lib: EatLib, s: State, r: nat, fetched: Fetched): State
  {
    if r in s.inflight && s.inflight[r].Looked? && EventFromCbor(c, s.inflight[r].body).Some? then
      var p := s.inflight[r];
      Judged(s, r, Responses(c, p.record, fetched), ValidateAttested(c, lib, EventFromCbor(c, p.body).value, fetched))
    else s
  }

  /** One step; a step that is not enabled, and a request that is refused, changes nothing else. */
  function Apply(c: Crypto, lib: EatLib, s: State, step: Step): State
  {
    match step
    case CreateEvent(record, saveOk) => Created(s, record, saveOk)
    case Arrive(r, id, body) =>
      if r !in s.inflight && body != [] && EventFromCbor(c, body).Some? then
        s.(inflight := s.inflight[r := Decoded(id, body)])
      else s
    case LookUp(r) =>
      if r in s.inflight && s.inflight[r].Decoded? then
        var p := s.inflight[r];
        if p.eventId in s.store.events then
          s.(inflight := s.inflight[r := Looked(p.eventId, p.body, s.store.events[p.eventId])])
        else s.(inflight := s.inflight - {r})
      else s
    case Validate(r, fetched) => Validation(c, lib, s, r, fetched)
    case Commit(r, appendOk, saveOk) =>
      if r in s.inflight && s.inflight[r].Validated? then
        var p := s.inflight[r];
        Committed(c, s.(inflight := s.inflight - {r}), p.eventId, p.body, appendOk, saveOk)
      else s
    case Crash => s.(store := s.disk, inflight := map[])
  }

  function Run(c: Crypto, lib: EatLib, steps: seq<Step>): State
  {
    if steps == [] then INITIAL
    else Apply(c, lib, Run(c, lib, steps[..|steps| - 1]), steps[|steps| - 1])
  }

  /** The service's own objects: the store behind its mutex and the log directory. */
  class EventServiceProcess {
    var events: map<string, EventRecord>
    var captured: map<string, seq<string>>
    var counts: map<string, nat>
    var logs: map<string, seq<bytes>>
    var disk: Store
    ghost var inflight: map<nat, Phase>
    ghost var accepted: set<(string, bytes)>
    ghost var known: set<EventRecord>
    ghost var served: set<(string, bytes)>

    ghost function Abstract(): State
      reads this
    {
      State(Store(events, captured, counts), disk, logs, inflight, accepted, known, served)
    }

    constructor ()
      ensures Abstract() == INITIAL
    {
      events, captured, counts, logs := map[], map[], map[], map[];
      disk := EMPTY_STORE;
      inflight, accepted, known, served := map[], {}, {}, {};
    }

    /** The second lock section of `ingest_event`. */
    method IngestCommit(c: Crypto, id: string, body: bytes, appendOk: bool, saveOk: bool)
      returns (reply: Option<(bool, nat)>)
      modifies this
      ensures Abstract() == Committed(c, old(Abstract()), id, body, appendOk, saveOk)
      ensures reply.Some? <==> saveOk && id in old(events)
                               && (c.sha256(body) in old(HashesOf(Abstract().store, id))
                                     || (appendOk && ValidEventId(id)))
      ensures reply.Some? ==>
                reply.value == (c.sha256(body) in old(HashesOf(Abstract().store, id)), CountOf(Abstract().store, id))
    {
      var hash := c.sha256(body);
      if id !in events { return None; }
      if id !in captured { captured := captured[id := []]; }
      ghost var touched := captured;
      assert touched == old(captured)[id := old(HashesOf(Abstract().store, id))];
      var duplicate := hash in captured[id];
      if !duplicate {
        if !appendOk || !ValidEventId(id) { return None; }
        logs := logs[id := GetOr(logs, id, []) + [body]];
        captured := captured[id := captured[id] + [hash]];
        counts := counts[id := if id in counts then SaturatingAdd(counts[id], 1) else 1];
        assert captured == touched[id := touched[id] + [hash]];
      }
      if !saveOk { return None; }
      disk := Store(events, captured, counts);
      accepted := accepted + {(id, body)};
      return Some((duplicate, GetOr(counts, id, 0)));
    }
  }

  // ------------------------------------------------------------------
  // What every step keeps
  // ------------------------------------------------------------------

  ghost function MapHash(c: Crypto, bodies: seq<bytes>): seq<string>
  {
    seq(|bodies|, i requires 0 <= i < |bodies| => c.sha256(bodies[i]))
  }

  ghost predicate HashLogged(c: Crypto, hash: string, log: seq<bytes>) { exists b :: b in log && c.sha256(b) == hash }

  /** What holds of the index of one event id in memory and on disk, crashes or not. */
  ghost predicate IndexKept(c: Crypto, s: State, id: string)
  {
    var hashes, saved, log := HashesOf(s.store, id), HashesOf(s.disk, id), LogOf(s, id);
    && Distinct(hashes) && saved <= hashes
    && CountOf(s.store, id) == Min(|hashes|, U64_MAX) && CountOf(s.disk, id) == Min(|saved|, U64_MAX)
    && |hashes| <= |log| && (|hashes| == |log| ==> hashes == MapHash(c, log))
    && forall h :: h in hashes ==> HashLogged(c, h, log)
  }

  /** The list is the hashes of the log bodies in order. */
  ghost predicate Agrees(c: Crypto, s: State, id: string)
  {
    HashesOf(s.store, id) == MapHash(c, LogOf(s, id))
  }

  /** The event is attested by a manifest that the record's manifest URL served
      and a receipt that the manifest's receipt URL served. */
  ghost predicate AttestedVia(c: Crypto, lib: EatLib, e: ContestEvent, record: EventRecord,
                              served: set<(string, bytes)>)
  {
    exists body, manifest: ContestManifest, receipt, stages ::
      && (record.gatewayManifestUrl, body) in served && IsManifest(c, body, manifest)
      && (manifest.trustPolicy.cvmReceiptUrl, receipt) in served
      && AttestedBy(c, lib, e, manifest, receipt, stages)
  }

  /** A body that has been validated for an event id, as the log and the in-flight requests hold it. */
  ghost predicate Vouched(c: Crypto, lib: EatLib, s: State, id: string, body: bytes)
  {
    && body != []
    && exists e :: IsEvent(c, body, e) && (e.assurance == "attested" ==> AttestedFor(c, lib, s, id, e))
  }

  /** Attested via the URLs of some record the contest has had. */
  ghost predicate AttestedFor(c: Crypto, lib: EatLib, s: State, id: string, e: ContestEvent)
  {
    exists record :: record in s.known && record.eventId == id && AttestedVia(c, lib, e, record, s.served)
  }

  ghost predicate LogsVouched(c: Crypto, lib: EatLib, s: State)
  {
    forall id, body :: body in LogOf(s, id) ==> Vouched(c, lib, s, id, body)
  }

  ghost predicate PhaseVouched(c: Crypto, lib: EatLib, s: State, p: Phase)
  {
    match p
    case Decoded(_, body) => body != []
    case Looked(id, body, record) => body != [] && record in s.known && record.eventId == id
    case Validated(id, body) => Vouched(c, lib, s, id, body)
  }

  ghost predicate RequestsVouched(c: Crypto, lib: EatLib, s: State)
  {
    forall r :: r in s.inflight ==> PhaseVouched(c, lib, s, s.inflight[r])
  }

  ghost predicate RecordsKnown(s: State, store: Store)
  {
    forall id :: id in store.events ==> store.events[id] in s.known && store.events[id].eventId == id
  }

  ghost predicate AcceptedLogged(c: Crypto, s: State)
  {
    forall id, body :: (id, body) in s.accepted ==> HashLogged(c, c.sha256(body), LogOf(s, id))
  }

  ghost predicate Inv(c: Crypto, lib: EatLib, s: State)
  {
    && (forall id :: IndexKept(c, s, id))
    && RecordsKnown(s, s.store) && RecordsKnown(s, s.disk)
    && LogsVouched(c, lib, s) && RequestsVouched(c, lib, s) && AcceptedLogged(c, s)
  }

  /** What a commit does to the index and log of an id: nothing, or one append to both. */
  lemma CommitIndex(c: Crypto, s: State, id: string, body: bytes, appendOk: bool, saveOk: bool, other: string)
    ensures var s' := Committed(c, s, id, body, appendOk, saveOk);
            var hash, hashes, log := c.sha256(body), HashesOf(s.store, other), LogOf(s, other);
            && (HashesOf(s'.disk, other), CountOf(s'.disk, other))
               in {(HashesOf(s.disk, other), CountOf(s.disk, other)),
                   (HashesOf(s'.store, other), CountOf(s'.store, other))}
            && if HashesOf(s'.store, other) == hashes
               then LogOf(s', other) == log && CountOf(s'.store, other) == CountOf(s.store, other)
               else && other == id && hash !in hashes
                    && HashesOf(s'.store, other) == hashes + [hash] && LogOf(s', other) == log + [body]
                    && CountOf(s'.store, other) == SaturatingAdd(CountOf(s.store, other), 1)
  {
  }

  lemma MapHashSnoc(c: Crypto, log: seq<bytes>, body: bytes)
    ensures MapHash(c, log + [body]) == MapHash(c, log) + [c.sha256(body)]
  {
  }

  lemma CommitKeepsIndex(c: Crypto, s: State, id: string, body: bytes, appendOk: bool, saveOk: bool, other: string)
    requires IndexKept(c, s, other)
    ensures var s' := Committed(c, s, id, body, appendOk, saveOk);
            IndexKept(c, s', other) && (Agrees(c, s', other) <==> Agrees(c, s, other))
  {
    var s' := Committed(c, s, id, body, appendOk, saveOk);
    CommitIndex(c, s, id, body, appendOk, saveOk, other);
    var hashes, log := HashesOf(s.store, other), LogOf(s, other);
    if HashesOf(s'.store, other) != hashes {
      MapHashSnoc(c, log, body);
      forall h | h in hashes + [c.sha256(body)] ensures HashLogged(c, h, log + [body]) {
        if h in hashes {
          var b :| b in log && c.sha256(b) == h;
          assert b in log + [body];
        } else {
          assert body in log + [body];
        }
      }
    }
  }

  /** History only grows, and with it what is vouched for. */
  ghost predicate Remembers(s: State, s': State)
  {
    s.known <= s'.known && s.served <= s'.served
  }

  lemma AttestedForGrows(c: Crypto, lib: EatLib, s: State, s': State, id: string, e: ContestEvent)
    requires AttestedFor(c, lib, s, id, e) && Remembers(s, s')
    ensures AttestedFor(c, lib, s', id, e)
  {
    var record :| record in s.known && record.eventId == id && AttestedVia(c, lib, e, record, s.served);
    var b, manifest: ContestManifest, receipt, stages :|
      && (record.gatewayManifestUrl, b) in s.served && IsManifest(c, b, manifest)
      && (manifest.trustPolicy.cvmReceiptUrl, receipt) in s.served
      && AttestedBy(c, lib, e, manifest, receipt, stages);
    assert (record.gatewayManifestUrl, b) in s'.served && (manifest.trustPolicy.cvmReceiptUrl, receipt) in s'.served;
    assert AttestedVia(c, lib, e, record, s'.served);
  }

  lemma VouchedGrows(c: Crypto, lib: EatLib, s: State, s': State, id: string, body: bytes)
    requires Vouched(c, lib, s, id, body) && Remembers(s, s')
    ensures Vouched(c, lib, s', id, body)
  {
    var e :| IsEvent(c, body, e) && (e.assurance == "attested" ==> AttestedFor(c, lib, s, id, e));
    if e.assurance == "attested" { AttestedForGrows(c, lib, s, s', id, e); }
  }

  lemma CommitKeepsLogs(c: Crypto, lib: EatLib, s: State, id: string, body: bytes, appendOk: bool, saveOk: bool)
    requires LogsVouched(c, lib, s) && Vouched(c, lib, s, id, body)
    ensures LogsVouched(c, lib, Committed(c, s, id, body, appendOk, saveOk))
  {
    var s' := Committed(c, s, id, body, appendOk, saveOk);
    assert Remembers(s, s');
    forall other, b | b in LogOf(s', other) ensures Vouched(c, lib, s', other, b) {
      CommitIndex(c, s, id, body, appendOk, saveOk, other);
      assert Vouched(c, lib, s, other, b);
      VouchedGrows(c, lib, s, s', other, b);
    }
  }

  lemma CommitKeepsAccepted(c: Crypto, s: State, id: string, body: bytes, appendOk: bool, saveOk: bool)
    requires AcceptedLogged(c, s) && forall other :: IndexKept(c, s, other)
    ensures AcceptedLogged(c, Committed(c, s, id, body, appendOk, saveOk))
  {
    var s' := Committed(c, s, id, body, appendOk, saveOk);
    forall other, b | (other, b) in s'.accepted ensures HashLogged(c, c.sha256(b), LogOf(s', other)) {
      CommitIndex(c, s, id, body, appendOk, saveOk, other);
      CommitKeepsIndex(c, s, id, body, appendOk, saveOk, other);
      if (other, b) in s.accepted { LoggedStays(c, c.sha256(b), LogOf(s, other), LogOf(s', other)); }
    }
  }

  lemma LoggedStays(c: Crypto, hash: string, log: seq<bytes>, log': seq<bytes>)
    requires HashLogged(c, hash, log) && log <= log'
    ensures HashLogged(c, hash, log')
  {
    var b :| b in log && c.sha256(b) == hash;
    assert b in log';
  }

  lemma CommitKeepsRecords(c: Crypto, lib: EatLib, s: State, id: string, body: bytes, appendOk: bool, saveOk: bool)
    requires RecordsKnown(s, s.store) && RecordsKnown(s, s.disk) && RequestsVouched(c, lib, s)
    ensures var s' := Committed(c, s, id, body, appendOk, saveOk);
            RecordsKnown(s', s'.store) && RecordsKnown(s', s'.disk) && RequestsVouched(c, lib, s')
  {
    var s' := Committed(c, s, id, body, appendOk, saveOk);
    assert s'.inflight == s.inflight && s'.known == s.known && s'.served == s.served;
    forall r | r in s'.inflight ensures PhaseVouched(c, lib, s', s'.inflight[r]) {
      var p := s.inflight[r];
      assert PhaseVouched(c, lib, s, p);
      if p.Validated? { VouchedGrows(c, lib, s, s', p.eventId, p.body); }
    }
  }

  lemma CommitKeepsInv(c: Crypto, lib: EatLib, s: State, r: nat, appendOk: bool, saveOk: bool)
    requires Inv(c, lib, s) && r in s.inflight && s.inflight[r].Validated?
    ensures Inv(c, lib, Apply(c, lib, s, Commit(r, appendOk, saveOk)))
    ensures forall id :: Agrees(c, Apply(c, lib, s, Commit(r, appendOk, saveOk)), id) <==> Agrees(c, s, id)
  {
    var t, id, body := s.(inflight := s.inflight - {r}), s.inflight[r].eventId, s.inflight[r].body;
    assert PhaseVouched(c, lib, s, s.inflight[r]);
    QuietKeepsInv(c, lib, s, t);
    VouchedGrows(c, lib, s, t, id, body);
    forall other
      ensures var s' := Committed(c, t, id, body, appendOk, saveOk);
              IndexKept(c, s', other) && (Agrees(c, s', other) <==> Agrees(c, s, other))
    {
      CommitKeepsIndex(c, t, id, body, appendOk, saveOk, other);
    }
    CommitKeepsLogs(c, lib, t, id, body, appendOk, saveOk);
    CommitKeepsAccepted(c, t, id, body, appendOk, saveOk);
    CommitKeepsRecords(c, lib, t, id, body, appendOk, saveOk);
  }

  /** A step that leaves stores, logs and replies alone, drops requests and may learn. */
  ghost predicate Quiet(c: Crypto, lib: EatLib, s: State, s': State)
  {
    && s'.store == s.store && s'.disk == s.disk && s'.logs == s.logs && s'.accepted == s.accepted && Remembers(s, s')
    && forall r :: r in s'.inflight ==>
         (r in s.inflight && s'.inflight[r] == s.inflight[r]) || PhaseVouched(c, lib, s', s'.inflight[r])
  }

  lemma QuietKeepsInv(c: Crypto, lib: EatLib, s: State, s': State)
    requires Inv(c, lib, s) && Quiet(c, lib, s, s')
    ensures Inv(c, lib, s') && forall id :: Agrees(c, s', id) <==> Agrees(c, s, id)
  {
    forall id ensures IndexKept(c, s', id) { assert IndexKept(c, s, id); }
    forall id, body | body in LogOf(s', id) ensures Vouched(c, lib, s', id, body) {
      assert body in LogOf(s, id);
      VouchedGrows(c, lib, s, s', id, body);
    }
    forall r | r in s'.inflight ensures PhaseVouched(c, lib, s', s'.inflight[r]) {
      if r in s.inflight && s'.inflight[r] == s.inflight[r] {
        var p := s.inflight[r];
        assert PhaseVouched(c, lib, s, p);
        if p.Validated? { VouchedGrows(c, lib, s, s', p.eventId, p.body); }
      }
    }
    forall id, body | (id, body) in s'.accepted ensures HashLogged(c, c.sha256(body), LogOf(s', id)) {
      assert LogOf(s', id) == LogOf(s, id);
    }
  }

  /** What passes the validation is attested via the URLs that were asked. */
  lemma PassedIsAttestedVia(c: Crypto, lib: EatLib, e: ContestEvent, record: EventRecord, fetched: Fetched,
                            served: set<(string, bytes)>)
    requires e.assurance == "attested" && ValidateAttested(c, lib, e, fetched)
    requires Responses(c, record, fetched) <= served
    ensures AttestedVia(c, lib, e, record, served)
  {
    var manifest, stages := ValidationIsSound(c, lib, e, fetched);
    var body, receipt := fetched.manifest.value, fetched.receipt.value;
    DecodersExactly(c, body, e, manifest);
    assert (record.gatewayManifestUrl, body) in Responses(c, record, fetched);
    assert (manifest.trustPolicy.cvmReceiptUrl, receipt) in Responses(c, record, fetched);
    assert AttestedBy(c, lib, e, manifest, receipt, stages);
  }

  lemma JudgedIsQuiet(c: Crypto, lib: EatLib, s: State, r: nat, responses: set<(string, bytes)>, passed: bool)
    requires r in s.inflight
    requires passed ==> Vouched(c, lib, Judged(s, r, responses, passed), s.inflight[r].eventId, s.inflight[r].body)
    ensures Quiet(c, lib, s, Judged(s, r, responses, passed))
  {
  }

  /** The only step that lets a request through does so on the validator's word about what was fetched. */
  lemma ValidationIsQuiet(c: Crypto, lib: EatLib, s: State, r: nat, fetched: Fetched)
    requires RequestsVouched(c, lib, s)
    ensures Quiet(c, lib, s, Validation(c, lib, s, r, fetched))
  {
    if r in s.inflight && s.inflight[r].Looked? && EventFromCbor(c, s.inflight[r].body).Some? {
      var p, e := s.inflight[r], EventFromCbor(c, s.inflight[r].body).value;
      assert PhaseVouched(c, lib, s, p);
      var passed, responses := ValidateAttested(c, lib, e, fetched), Responses(c, p.record, fetched);
      if passed {
        assert IsEvent(c, p.body, e);
        if e.assurance == "attested" { PassedIsAttestedVia(c, lib, e, p.record, fetched, s.served + responses); }
      }
      JudgedIsQuiet(c, lib, s, r, responses, passed);
    }
  }

  lemma CreateKeepsInv(c: Crypto, lib: EatLib, s: State, record: EventRecord, saveOk: bool)
    requires Inv(c, lib, s)
    ensures Inv(c, lib, Created(s, record, saveOk))
    ensures forall id :: Agrees(c, Created(s, record, saveOk), id) <==> Agrees(c, s, id)
  {
    var s' := Created(s, record, saveOk);
    var t := s.(known := s.known + {record});
    QuietKeepsInv(c, lib, s, t);
    forall id
      ensures IndexKept(c, s', id) && HashesOf(s'.store, id) == HashesOf(s.store, id) && LogOf(s', id) == LogOf(s, id)
    {
      assert IndexKept(c, s, id);
    }
    forall id, body | body in LogOf(s', id) ensures Vouched(c, lib, s', id, body) {
      VouchedGrows(c, lib, t, s', id, body);
    }
    forall r | r in s'.inflight ensures PhaseVouched(c, lib, s', s'.inflight[r]) {
      var p := t.inflight[r];
      assert PhaseVouched(c, lib, t, p);
      if p.Validated? { VouchedGrows(c, lib, t, s', p.eventId, p.body); }
    }
  }

  /** A crash keeps what every step keeps; list and log agree after it exactly
      when they did before and the disk already had the whole list. */
  lemma ReloadKeepsIndexExactly(c: Crypto, lib: EatLib, s: State, id: string)
    requires IndexKept(c, s, id)
    ensures var s' := Apply(c, lib, s, Crash);
            && IndexKept(c, s', id)
            && (Agrees(c, s', id) <==> Agrees(c, s, id) && HashesOf(s.disk, id) == HashesOf(s.store, id))
  {
    assert |MapHash(c, LogOf(s, id))| == |LogOf(s, id)|;
  }

  lemma CrashKeepsInv(c: Crypto, lib: EatLib, s: State)
    requires Inv(c, lib, s)
    ensures Inv(c, lib, Apply(c, lib, s, Crash))
  {
    var s' := Apply(c, lib, s, Crash);
    forall id ensures IndexKept(c, s', id) { ReloadKeepsIndexExactly(c, lib, s, id); }
    forall id, body | body in LogOf(s', id) ensures Vouched(c, lib, s', id, body) {
      assert body in LogOf(s, id);
      VouchedGrows(c, lib, s, s', id, body);
    }
    forall id, body | (id, body) in s'.accepted ensures HashLogged(c, c.sha256(body), LogOf(s', id)) {
      assert LogOf(s', id) == LogOf(s, id);
    }
  }

  /** Every step keeps the invariant, and every step but a crash keeps list and log in agreement or apart. */
  lemma StepKeepsInv(c: Crypto, lib: EatLib, s: State, step: Step)
    requires Inv(c, lib, s)
    ensures Inv(c, lib, Apply(c, lib, s, step))
    ensures !step.Crash? ==> forall id :: Agrees(c, Apply(c, lib, s, step), id) <==> Agrees(c, s, id)
  {
    match step
    case CreateEvent(record, saveOk) => CreateKeepsInv(c, lib, s, record, saveOk);
    case Crash => CrashKeepsInv(c, lib, s);
    case Validate(r, fetched) =>
      ValidationIsQuiet(c, lib, s, r, fetched);
      QuietKeepsInv(c, lib, s, Validation(c, lib, s, r, fetched));
    case Commit(r, appendOk, saveOk) =>
      if r in s.inflight && s.inflight[r].Validated? { CommitKeepsInv(c, lib, s, r, appendOk, saveOk); }
    case Arrive(_, _, _) => QuietKeepsInv(c, lib, s, Apply(c, lib, s, step));
    case LookUp(_) => QuietKeepsInv(c, lib, s, Apply(c, lib, s, step));
  }

  lemma {:induction false} RunKeepsInv(c: Crypto, lib: EatLib, steps: seq<Step>)
    ensures Inv(c, lib, Run(c, lib, steps))
  {
    if steps != [] {
      RunKeepsInv(c, lib, steps[..|steps| - 1]);
      StepKeepsInv(c, lib, Run(c, lib, steps[..|steps| - 1]), steps[|steps| - 1]);
    }
  }

  // ------------------------------------------------------------------
  // Ledger and index agree exactly when crashes find the list saved
  // ------------------------------------------------------------------

  /** Every crash of the run finds the list of the id on disk as it is in memory. */
  ghost predicate SafeCrashes(c: Crypto, lib: EatLib, steps: seq<Step>, id: string)
  {
    forall i :: 0 <= i < |steps| && steps[i].Crash? ==> SavedList(Run(c, lib, steps[..i]), id)
  }

  ghost predicate SavedList(s: State, id: string) { HashesOf(s.disk, id) == HashesOf(s.store, id) }

  lemma SafeCrashesSnoc(c: Crypto, lib: EatLib, steps: seq<Step>, id: string)
    requires steps != []
    ensures var n := |steps| - 1;
            var safe := SafeCrashes(c, lib, steps[..n], id)
                && (steps[n].Crash? ==> SavedList(Run(c, lib, steps[..n]), id));
            SafeCrashes(c, lib, steps, id) <==> safe
  {
    var n := |steps| - 1;
    forall i | 0 <= i < n ensures steps[..n][i] == steps[i] && steps[..n][..i] == steps[..i] { }
    if SafeCrashes(c, lib, steps[..n], id) && (steps[n].Crash? ==> SavedList(Run(c, lib, steps[..n]), id)) {
      forall i | 0 <= i < |steps| && steps[i].Crash? ensures SavedList(Run(c, lib, steps[..i]), id) {
        if i < n { assert steps[..n][i].Crash? && steps[..n][..i] == steps[..i]; }
      }
    }
    if SafeCrashes(c, lib, steps, id) {
      forall i | 0 <= i < n && steps[..n][i].Crash? ensures SavedList(Run(c, lib, steps[..n][..i]), id) {
        assert steps[i].Crash? && steps[..n][..i] == steps[..i];
      }
    }
  }

  lemma {:induction false} AgreementSurvivesExactly(c: Crypto, lib: EatLib, steps: seq<Step>, id: string)
    ensures Agrees(c, Run(c, lib, steps), id) <==> SafeCrashes(c, lib, steps, id)
  {
    if steps != [] {
      var n := |steps| - 1;
      AgreementSurvivesExactly(c, lib, steps[..n], id);
      SafeCrashesSnoc(c, lib, steps, id);
      var s := Run(c, lib, steps[..n]);
      RunKeepsInv(c, lib, steps[..n]);
      StepKeepsInv(c, lib, s, steps[n]);
      if steps[n].Crash? { ReloadKeepsIndexExactly(c, lib, s, id); }
    }
  }

  /** Ledger-index agreement for every interleaving of ingests, duplicates,
      failed appends and saves and crashes.  The list never repeats a hash or
      names a body that is not logged, and the saturating count is its length;
      it is the hashes of the log bodies in order if and only if every crash
      found it saved, and then no body is logged twice. */
  lemma LedgerIndexAgreement(c: Crypto, lib: EatLib, steps: seq<Step>, id: string)
    ensures var s := Run(c, lib, steps);
            var hashes, log := HashesOf(s.store, id), LogOf(s, id);
            && Distinct(hashes) && |hashes| <= |log| && CountOf(s.store, id) == Min(|hashes|, U64_MAX)
            && (forall h :: h in hashes ==> HashLogged(c, h, log))
            && (hashes == MapHash(c, log) <==> SafeCrashes(c, lib, steps, id))
            && (SafeCrashes(c, lib, steps, id) ==> Distinct(log))
  {
    var s := Run(c, lib, steps);
    RunKeepsInv(c, lib, steps);
    assert IndexKept(c, s, id);
    AgreementSurvivesExactly(c, lib, steps, id);
    var log, hashes := LogOf(s, id), HashesOf(s.store, id);
    if hashes == MapHash(c, log) {
      forall i, j | 0 <= i < j < |log| ensures log[i] != log[j] {
        assert hashes[i] == c.sha256(log[i]) && hashes[j] == c.sha256(log[j]);
      }
    }
  }

  /** Attested soundness over runs, crashes included: every logged event that
      says "attested" verified under the key of a manifest served at the
      manifest URL of the record its contest had, with a receipt served at that
      manifest's receipt URL. */
  lemma AttestedSoundness(c: Crypto, lib: EatLib, steps: seq<Step>, id: string, body: bytes)
    requires body in LogOf(Run(c, lib, steps), id)
    ensures body != []
    ensures exists e :: && IsEvent(c, body, e)
                        && (e.assurance == "attested" ==> AttestedFor(c, lib, Run(c, lib, steps), id, e))
  {
    RunKeepsInv(c, lib, steps);
    assert Vouched(c, lib, Run(c, lib, steps), id, body);
  }

  /** A 202 is never empty, crashes or not: with an injective hash the body is in the log. */
  lemma AcceptedIsLogged(c: Crypto, lib: EatLib, s: State, id: string, body: bytes)
    requires InjectiveHash(c) && Inv(c, lib, s) && (id, body) in s.accepted
    ensures body in LogOf(s, id)
  {
    assert HashLogged(c, c.sha256(body), LogOf(s, id));
  }

  // ------------------------------------------------------------------
  // What an unsafe crash costs
  // ------------------------------------------------------------------

  /** One request served without interruption. */
  function Ingested(c: Crypto, lib: EatLib, s: State, r: nat, id: string, body: bytes, fetched: Fetched,
                    saveOk: bool): State
  {
    var s1 := Apply(c, lib, s, Arrive(r, id, body));
    var s2 := Apply(c, lib, s1, LookUp(r));
    var s3 := Apply(c, lib, s2, Validate(r, fetched));
    Apply(c, lib, s3, Commit(r, true, saveOk))
  }

  /** A body the service will take: it decodes, and passes the validation with what is fetched. */
  ghost predicate Ingestible(c: Crypto, lib: EatLib, body: bytes, fetched: Fetched)
  {
    body != [] && EventFromCbor(c, body).Some? && ValidateAttested(c, lib, EventFromCbor(c, body).value, fetched)
  }

  /** A fresh, valid request to a known contest commits; with append and save working it is answered 202. */
  lemma IngestCommits(c: Crypto, lib: EatLib, s: State, r: nat, id: string, body: bytes, fetched: Fetched, saveOk: bool)
    requires Ingestible(c, lib, body, fetched) && r !in s.inflight && id in s.store.events && ValidEventId(id)
    ensures var s' := Ingested(c, lib, s, r, id, body, fetched, saveOk);
            && s'.inflight == s.inflight && s'.store.events == s.store.events
            && s'.disk == (if saveOk then s'.store else s.disk)
            && LogOf(s', id) == (if c.sha256(body) in HashesOf(s.store, id) then LogOf(s, id)
                 else LogOf(s, id) + [body])
            && (saveOk ==> (id, body) in s'.accepted)
  {
    var s1 := Apply(c, lib, s, Arrive(r, id, body));
    var s2 := Apply(c, lib, s1, LookUp(r));
    var s3 := Apply(c, lib, s2, Validate(r, fetched));
    assert s3.inflight[r] == Validated(id, body);
    assert s3.inflight - {r} == s.inflight;
  }

  /** Whenever a crash loses the hash of a logged body, sending it again logs it again. */
  lemma ResendAfterCrashDuplicates(c: Crypto, lib: EatLib, s: State, r: nat, id: string, body: bytes, fetched: Fetched)
    requires Ingestible(c, lib, body, fetched) && id in s.disk.events && ValidEventId(id)
    requires body in LogOf(s, id) && c.sha256(body) !in HashesOf(s.disk, id)
    ensures var s' := Ingested(c, lib, Apply(c, lib, s, Crash), r, id, body, fetched, true);
            LogOf(s', id) == LogOf(s, id) + [body] && multiset(LogOf(s', id))[body] >= 2
  {
    IngestCommits(c, lib, Apply(c, lib, s, Crash), r, id, body, fetched, true);
    assert multiset(LogOf(s, id) + [body]) == multiset(LogOf(s, id)) + multiset{body};
  }

  ghost predicate Reachable(c: Crypto, lib: EatLib, s: State) { exists steps :: Run(c, lib, steps) == s }

  lemma StepReaches(c: Crypto, lib: EatLib, s: State, step: Step)
    requires Reachable(c, lib, s)
    ensures Reachable(c, lib, Apply(c, lib, s, step))
  {
    var steps :| Run(c, lib, steps) == s;
    var more := steps + [step];
    assert more[..|steps|] == steps;
    assert Run(c, lib, more) == Apply(c, lib, s, step);
  }

  lemma IngestReaches(c: Crypto, lib: EatLib, s: State, r: nat, id: string, body: bytes, fetched: Fetched, saveOk: bool)
    requires Reachable(c, lib, s)
    ensures Reachable(c, lib, Ingested(c, lib, s, r, id, body, fetched, saveOk))
  {
    var s1 := Apply(c, lib, s, Arrive(r, id, body));
    var s2 := Apply(c, lib, s1, LookUp(r));
    StepReaches(c, lib, s, Arrive(r, id, body));
    StepReaches(c, lib, s1, LookUp(r));
    StepReaches(c, lib, s2, Validate(r, fetched));
    StepReaches(c, lib, Apply(c, lib, s2, Validate(r, fetched)), Commit(r, true, saveOk));
  }

  /** Such a crash does happen: from the start, create a contest, ingest a
      body whose save fails, crash, and ingest it again. */
  lemma UnsavedReloadDuplicates(c: Crypto, lib: EatLib, record: EventRecord, body: bytes, fetched: Fetched)
    requires Ingestible(c, lib, body, fetched) && ValidEventId(record.eventId)
    ensures exists s :: Reachable(c, lib, s) && LogOf(s, record.eventId) == [body, body]
  {
    var id := record.eventId;
    assert Run(c, lib, []) == INITIAL;
    StepReaches(c, lib, INITIAL, CreateEvent(record, true));
    var s1 := Apply(c, lib, INITIAL, CreateEvent(record, true));
    IngestReaches(c, lib, s1, 0, id, body, fetched, false);
    IngestCommits(c, lib, s1, 0, id, body, fetched, false);
    var s2 := Ingested(c, lib, s1, 0, id, body, fetched, false);
    assert LogOf(s2, id) == [body];
    StepReaches(c, lib, s2, Crash);
    var s3 := Apply(c, lib, s2, Crash);
    IngestReaches(c, lib, s3, 0, id, body, fetched, true);
    ResendAfterCrashDuplicates(c, lib, s2, 0, id, body, fetched);
    assert LogOf(Ingested(c, lib, s3, 0, id, body, fetched, true), id) == [body] + [body];
  }

  // ------------------------------------------------------------------
  // Exactly when a body is logged twice
  // ------------------------------------------------------------------

  /** The body a step offers to the log of an id: a validated request that
      commits, to a known contest that can have a log, with the append working. */
  function Offered(s: State, step: Step, id: string): Option<bytes>
  {
    if step.Commit? && step.appendOk && step.request in s.inflight && s.inflight[step.request].Validated?
       && s.inflight[step.request].eventId == id && id in s.store.events && ValidEventId(id)
    then Some(s.inflight[step.request].body)
    else None
  }

  /** A crash that finds the body in the log and its hash not yet on disk. */
  ghost predicate CrashLoses(c: Crypto, s: State, step: Step, id: string, body: bytes)
  {
    step.Crash? && body in LogOf(s, id) && c.sha256(body) !in HashesOf(s.disk, id)
  }

  /** What a step does to the log and the list of an id, exactly. */
  lemma StepOnLog(c: Crypto, lib: EatLib, s: State, step: Step, id: string)
    ensures var s', body := Apply(c, lib, s, step), Offered(s, step, id);
            var hashes, log := HashesOf(s.store, id), LogOf(s, id);
            if body.Some? && c.sha256(body.value) !in hashes
            then LogOf(s', id) == log + [body.value] && HashesOf(s'.store, id) == hashes + [c.sha256(body.value)]
            else LogOf(s', id) == log && HashesOf(s'.store, id) == if step.Crash? then HashesOf(s.disk, id) else hashes
  {
  }

  /** The state before step n of a run. */
  function StateAt(c: Crypto, lib: EatLib, steps: seq<Step>, n: nat): State
    requires n <= |steps|
  {
    Run(c, lib, steps[..n])
  }

  lemma StateAtNext(c: Crypto, lib: EatLib, steps: seq<Step>, n: nat)
    requires n < |steps|
    ensures StateAt(c, lib, steps, n + 1) == Apply(c, lib, StateAt(c, lib, steps, n), steps[n])
  {
    assert steps[..n + 1][..n] == steps[..n];
  }

  /** Step k of the run is a crash that loses the hash of the logged body. */
  ghost function LostIn(c: Crypto, lib: EatLib, steps: seq<Step>, id: string, body: bytes): nat -> bool
  {
    (k: nat) => k < |steps| && CrashLoses(c, StateAt(c, lib, steps, k), steps[k], id, body)
  }

  /** Step k of the run offers the body to the log. */
  ghost function OfferedIn(c: Crypto, lib: EatLib, steps: seq<Step>, id: string, body: bytes): nat -> bool
  {
    (k: nat) => k < |steps| && Offered(StateAt(c, lib, steps, k), steps[k], id) == Some(body)
  }

  ghost function CopiesIn(c: Crypto, lib: EatLib, steps: seq<Step>, id: string, body: bytes): nat -> nat
  {
    (k: nat) => if k <= |steps| then multiset(LogOf(StateAt(c, lib, steps, k), id))[body] else 0
  }

  ghost function ListedIn(c: Crypto, lib: EatLib, steps: seq<Step>, id: string, body: bytes): nat -> bool
  {
    (k: nat) => k <= |steps| && c.sha256(body) in HashesOf(StateAt(c, lib, steps, k).store, id)
  }

  /** A crash of the run loses the hash of the logged body, and a later commit offers the body again. */
  ghost predicate LoggedAgain(c: Crypto, lib: EatLib, steps: seq<Step>, id: string, body: bytes)
  {
    Histories.OfferedAfterLoss(OfferedIn(c, lib, steps, id, body), LostIn(c, lib, steps, id, body), |steps|)
  }

  /** How one step moves the copies of a body and its listing. */
  lemma StepOnCopies(c: Crypto, lib: EatLib, s: State, step: Step, id: string, body: bytes)
    requires InjectiveHash(c) && IndexKept(c, s, id)
    ensures var s', hash := Apply(c, lib, s, step), c.sha256(body);
            var copies, copies' := multiset(LogOf(s, id))[body], multiset(LogOf(s', id))[body];
            var listed, listed' := hash in HashesOf(s.store, id), hash in HashesOf(s'.store, id);
            var offered, lost := Offered(s, step, id) == Some(body), CrashLoses(c, s, step, id, body);
            && copies' == (if offered && !listed then copies + 1 else copies)
            && (offered ==> listed') && (!offered && !listed ==> !listed')
            && (listed && !listed' && copies > 0 ==> lost) && (lost ==> !listed' && copies > 0)
  {
    StepOnLog(c, lib, s, step, id);
    var log, other := LogOf(s, id), Offered(s, step, id);
    if other.Some? { assert multiset(log + [other.value]) == multiset(log) + multiset{other.value}; }
  }

  lemma RunOnCopies(c: Crypto, lib: EatLib, steps: seq<Step>, id: string, body: bytes, k: nat)
    requires InjectiveHash(c) && k < |steps|
    ensures Histories.CopyStep(CopiesIn(c, lib, steps, id, body), ListedIn(c, lib, steps, id, body),
                               OfferedIn(c, lib, steps, id, body), LostIn(c, lib, steps, id, body), k)
  {
    StateAtNext(c, lib, steps, k);
    RunKeepsInv(c, lib, steps[..k]);
    StepOnCopies(c, lib, StateAt(c, lib, steps, k), steps[k], id, body);
  }

  lemma RunIsCopying(c: Crypto, lib: EatLib, steps: seq<Step>, id: string, body: bytes)
    requires InjectiveHash(c)
    ensures Histories.Copying(CopiesIn(c, lib, steps, id, body), ListedIn(c, lib, steps, id, body),
                              OfferedIn(c, lib, steps, id, body), LostIn(c, lib, steps, id, body), |steps|)
  {
    assert steps[..0] == [];
    forall k: nat | k < |steps|
      ensures Histories.CopyStep(CopiesIn(c, lib, steps, id, body), ListedIn(c, lib, steps, id, body),
                                 OfferedIn(c, lib, steps, id, body), LostIn(c, lib, steps, id, body), k)
    {
      RunOnCopies(c, lib, steps, id, body, k);
    }
  }

  /** Over whole runs, crashes included: the log of an id holds a body more
      than once if and only if, some time, a crash found the body logged and
      its hash not on disk, and later a commit of the body got through. */
  lemma LogHoldsOnceExactly(c: Crypto, lib: EatLib, steps: seq<Step>, id: string, body: bytes)
    requires InjectiveHash(c)
    ensures multiset(LogOf(Run(c, lib, steps), id))[body] <= 1 <==> !LoggedAgain(c, lib, steps, id, body)
  {
    RunIsCopying(c, lib, steps, id, body);
    Histories.SecondCopyExactly(CopiesIn(c, lib, steps, id, body), ListedIn(c, lib, steps, id, body),
                                OfferedIn(c, lib, steps, id, body), LostIn(c, lib, steps, id, body), |steps|);
    assert steps[..|steps|] == steps;
  }

  /** Only contests that were created, under ids that can name a file, ever get a log. */
  lemma {:induction false} LogsAreOfContests(c: Crypto, lib: EatLib, steps: seq<Step>, id: string)
    requires LogOf(Run(c, lib, steps), id) != []
    ensures forall i :: 0 <= i < |id| ==> IdCharacter(id[i])
    ensures exists record :: record in Run(c, lib, steps).known && record.eventId == id
  {
    if steps != [] {
      var n := |steps| - 1;
      var s := Run(c, lib, steps[..n]);
      StepOnLog(c, lib, s, steps[n], id);
      RunKeepsInv(c, lib, steps[..n]);
      assert s.known <= Run(c, lib, steps).known;
      if LogOf(s, id) != [] {
        LogsAreOfContests(c, lib, steps[..n], id);
      } else {
        ValidEventIdExactly(id);
        assert s.store.events[id] in s.known;
      }
    }
  }
}
