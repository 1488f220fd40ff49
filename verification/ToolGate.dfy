/** The tool gate: a bounded window of issued challenges (section 2.1 of RFC
    9577), a key cache backed by a transparency log, and spend-before-send
    redemption (section 2.2 of RFC 9577).

    Token cryptography and the log's signature check are external. */
module ToolGate {
  import opened Common

  const MAX_RECENT_CHALLENGES: nat := 128

  datatype Challenge = Challenge(issuerName: string, originInfo: string, redemptionContext: bytes)
  datatype Token = Token(challengeDigest: bytes, tokenKeyId: bytes, content: bytes)
  datatype IssuerKey = IssuerKey(keyVersion: nat, material: bytes)
  datatype KeyEntry = KeyEntry(key: IssuerKey, epoch: nat)
  datatype KeyRecord = KeyRecord(tokenKeyId: string, keyVersion: nat)
  datatype KtResponse = KtResponse(logPub: bytes, records: seq<KeyRecord>, signedHead: bytes)

  datatype GateLib = GateLib(
    digest: Challenge -> bytes,
    parseAuthorization: string -> Option<Token>,
    tokenKeyId: IssuerKey -> Option<bytes>,
    verifyToken: (IssuerKey, Token, Challenge) -> Option<bytes>,     // the nonce
    verifyLog: (bytes, seq<KeyRecord>, bytes) -> bool,
    hex: bytes -> string)

  datatype Reject = MissingToken | Malformed | UnknownKey | InvalidToken | UnknownChallenge | DoubleSpend | RedeemerDown

  // ------------------------------------------------------------------
  // The challenge window
  // ------------------------------------------------------------------

  /** The last `n` elements, or all of them. */
  function Last<T>(s: seq<T>, n: nat): seq<T> { if |s| <= n then s else s[|s| - n..] }

  /** `register_challenge`: push, then drain what exceeds the window. */
  function Registered(recent: seq<Challenge>, ch: Challenge): seq<Challenge>
  {
    Last(recent + [ch], MAX_RECENT_CHALLENGES)
  }

  /** `challenge_for_digest`: the oldest match in the window. */
  function ChallengeForDigest(lib: GateLib, recent: seq<Challenge>, digest: bytes): Option<Challenge>
  {
    if recent == [] then None
    else if lib.digest(recent[0]) == digest then Some(recent[0])
    else ChallengeForDigest(lib, recent[1..], digest)
  }

  function Window(issued: seq<Challenge>): seq<Challenge>
  {
    if issued == [] then [] else Registered(Window(issued[..|issued| - 1]), issued[|issued| - 1])
  }

  lemma LastExactly<T>(s: seq<T>, n: nat)
    ensures |Last(s, n)| == (if |s| <= n then |s| else n)
    ensures forall i :: 0 <= i < |Last(s, n)| ==> Last(s, n)[i] == s[|s| - |Last(s, n)| + i]
  {
  }

  /** After any history of challenges the window is the last min(n, 128) of them, in order. */
  lemma {:induction false} WindowIsLast(issued: seq<Challenge>)
    ensures Window(issued) == Last(issued, 128)
  {
    if issued != [] {
      var n := |issued| - 1;
      WindowIsLast(issued[..n]);
      assert issued == issued[..n] + [issued[n]];
    }
  }

  lemma {:induction false} LookupFindsFirst(lib: GateLib, recent: seq<Challenge>, digest: bytes)
    ensures var r := ChallengeForDigest(lib, recent, digest);
            && (r.Some? <==> exists i :: 0 <= i < |recent| && lib.digest(recent[i]) == digest)
            && (r.Some? ==> exists i :: 0 <= i < |recent| && recent[i] == r.value && lib.digest(r.value) == digest
                                     && forall j :: 0 <= j < i ==> lib.digest(recent[j]) != digest)
  {
    if recent != [] && lib.digest(recent[0]) != digest {
      var rest := recent[1..];
      LookupFindsFirst(lib, rest, digest);
      var r := ChallengeForDigest(lib, rest, digest);
      assert forall i :: 0 <= i < |rest| ==> rest[i] == recent[i + 1];
      if r.Some? {
        var i :| && 0 <= i < |rest| && rest[i] == r.value && lib.digest(r.value) == digest
                 && forall j :: 0 <= j < i ==> lib.digest(rest[j]) != digest;
        assert recent[i + 1] == r.value;
        assert forall j :: 0 < j < i + 1 ==> recent[j] == rest[j - 1];
      }
      assert forall i :: 0 < i < |recent| ==> recent[i] == rest[i - 1];
    }
  }

  /** A digest is honoured exactly when one of the last 128 issued challenges has it. */
  lemma LookupSucceedsExactly(lib: GateLib, issued: seq<Challenge>, digest: bytes)
    ensures ChallengeForDigest(lib, Window(issued), digest).Some?
       <==> exists ch :: ch in Last(issued, 128) && lib.digest(ch) == digest
  {
    WindowIsLast(issued);
    LookupFindsFirst(lib, Window(issued), digest);
  }

  // ------------------------------------------------------------------
  // The key cache
  // ------------------------------------------------------------------

  predicate SameIgnoringCase(a: string, b: string) { AsciiLower(a) == AsciiLower(b) }

  /** Letter by letter, case aside. */
  lemma SameIgnoringCaseExactly(a: string, b: string)
    ensures SameIgnoringCase(a, b)
       <==> |a| == |b| && forall i :: 0 <= i < |a| ==>
              || a[i] == b[i]
              || ('A' <= a[i] <= 'Z' && a[i] as int + 32 == b[i] as int)
              || ('A' <= b[i] <= 'Z' && b[i] as int + 32 == a[i] as int)
  {
    var x, y := AsciiLower(a), AsciiLower(b);
    if x == y {
      forall i | 0 <= i < |a|
        ensures || a[i] == b[i]
                || ('A' <= a[i] <= 'Z' && a[i] as int + 32 == b[i] as int)
                || ('A' <= b[i] <= 'Z' && b[i] as int + 32 == a[i] as int)
      {
        assert x[i] == y[i];
      }
    }
  }

  /** The record is the first one listed for the id. */
  ghost predicate FirstRecord(records: seq<KeyRecord>, want: string, rec: KeyRecord)
  {
    exists i :: && 0 <= i < |records| && records[i] == rec && SameIgnoringCase(rec.tokenKeyId, want)
                && forall j :: 0 <= j < i ==> !SameIgnoringCase(records[j].tokenKeyId, want)
  }

  function FindRecord(records: seq<KeyRecord>, want: string): (r: Option<KeyRecord>)
    ensures r.Some? ==> FirstRecord(records, want, r.value)
    ensures r.None? ==> forall rec :: rec in records ==> !SameIgnoringCase(rec.tokenKeyId, want)
  {
    if records == [] then None
    else if SameIgnoringCase(records[0].tokenKeyId, want) then
      assert records[0] == records[0];
      Some(records[0])
    else
      var r := FindRecord(records[1..], want);
      if r.Some? then FirstRecordLater(records, want, r.value); r else r
  }

  lemma FirstRecordLater(records: seq<KeyRecord>, want: string, rec: KeyRecord)
    requires records != [] && !SameIgnoringCase(records[0].tokenKeyId, want) && FirstRecord(records[1..], want, rec)
    ensures FirstRecord(records, want, rec)
  {
    var rest := records[1..];
    var i :| && 0 <= i < |rest| && rest[i] == rec && SameIgnoringCase(rec.tokenKeyId, want)
             && forall j :: 0 <= j < i ==> !SameIgnoringCase(rest[j].tokenKeyId, want);
    assert records[i + 1] == rec;
    assert forall j :: 0 < j < i + 1 ==> records[j] == rest[j - 1];
  }

  /** `resolve_via_kt`: `kt` and `key` are what the two fetches returned. */
  function Resolve(lib: GateLib, ktLogPub: bytes, tkid: bytes, kt: Option<KtResponse>,
                   key: Option<IssuerKey>): Option<KeyEntry>
  {
    if kt.None? || kt.value.logPub != ktLogPub then None
    else if !lib.verifyLog(ktLogPub, kt.value.records, kt.value.signedHead) then None
    else match FindRecord(kt.value.records, lib.hex(tkid))
      case None => None
      case Some(rec) =>
        if key.None? || lib.tokenKeyId(key.value) != Some(tkid) then None
        else Some(KeyEntry(key.value, rec.keyVersion))
  }

  /** The entry was served with a log that verifies and lists its key id under its epoch. */
  ghost predicate FromVerifiedLog(lib: GateLib, ktLogPub: bytes, tkid: bytes, e: KeyEntry)
  {
    exists kt: KtResponse, rec :: kt.logPub == ktLogPub && lib.verifyLog(ktLogPub, kt.records, kt.signedHead)
      && rec in kt.records && SameIgnoringCase(rec.tokenKeyId, lib.hex(tkid)) && rec.keyVersion == e.epoch
  }

  ghost predicate CacheSound(lib: GateLib, ktLogPub: bytes, boot: (bytes, KeyEntry), keys: map<bytes, KeyEntry>)
  {
    && boot.0 in keys && keys[boot.0] == boot.1
    && (forall t :: t in keys ==> lib.tokenKeyId(keys[t].key) == Some(t))
    && (forall t :: t in keys ==> t == boot.0 || FromVerifiedLog(lib, ktLogPub, t, keys[t]))
  }

  // ------------------------------------------------------------------
  // The gate object
  // ------------------------------------------------------------------

  /** How `spend_centrally` reads the redeemer's reply; `None` is success. */
  function SpendStatus(status: Option<nat>): Option<Reject>
  {
    match status
    case Some(code) => if 200 <= code < 300 then None else if code == 409 then Some(DoubleSpend) else Some(RedeemerDown)
    case None => Some(RedeemerDown)
  }

  /** A success status arrived. */
  ghost predicate Success(status: Option<nat>) { status.Some? && 200 <= status.value < 300 }

  /** The key for an id: cached, or resolved through the log. */
  function KeyOf(lib: GateLib, ktLogPub: bytes, keys: map<bytes, KeyEntry>, tkid: bytes, kt: Option<KtResponse>,
                 key: Option<IssuerKey>): Option<KeyEntry>
  {
    if tkid in keys then Some(keys[tkid]) else Resolve(lib, ktLogPub, tkid, kt, key)
  }

  /** What the checks before the spend say: the epoch and nonce to spend, or the first reason not to. */
  function Verdict(lib: GateLib, ktLogPub: bytes, keys: map<bytes, KeyEntry>, recent: seq<Challenge>,
                   auth: Option<string>,
                   digest: bytes, kt: Option<KtResponse>, key: Option<IssuerKey>): Result<(nat, bytes), Reject>
  {
    if auth.None? then Err(MissingToken)
    else if lib.parseAuthorization(auth.value).None? then Err(Malformed)
    else
      var token := lib.parseAuthorization(auth.value).value;
      var ch := ChallengeForDigest(lib, recent, digest);
      var entry := KeyOf(lib, ktLogPub, keys, token.tokenKeyId, kt, key);
      if token.challengeDigest != digest then Err(InvalidToken)
      else if ch.None? then Err(UnknownChallenge)
      else if entry.None? then Err(UnknownKey)
      else match lib.verifyToken(entry.value.key, token, ch.value)
        case None => Err(InvalidToken)
        case Some(nonce) => Ok((entry.value.epoch, nonce))
  }

  /** The token answers the oldest challenge in the window with its digest, and `e` is the key for its id. */
  ghost predicate Presentable(lib: GateLib, ktLogPub: bytes, keys: map<bytes, KeyEntry>, recent: seq<Challenge>,
                              token: Token, kt: Option<KtResponse>, key: Option<IssuerKey>, ch: Challenge, e: KeyEntry)
  {
    && (exists i :: && 0 <= i < |recent| && recent[i] == ch && lib.digest(ch) == token.challengeDigest
                    && forall j :: 0 <= j < i ==> lib.digest(recent[j]) != token.challengeDigest)
    && (if token.tokenKeyId in keys then e == keys[token.tokenKeyId]
        else Resolve(lib, ktLogPub, token.tokenKeyId, kt, key) == Some(e))
  }

  /** The checks pass exactly when the header carries a token for the digest
      asked for that is presentable and verifies; then they yield the key's epoch and the token's nonce. */
  lemma VerdictPassesExactly(lib: GateLib, ktLogPub: bytes, keys: map<bytes, KeyEntry>, recent: seq<Challenge>,
                             auth: Option<string>, digest: bytes, kt: Option<KtResponse>, key: Option<IssuerKey>,
                             epoch: nat, nonce: bytes)
    ensures Verdict(lib, ktLogPub, keys, recent, auth, digest, kt, key) == Ok((epoch, nonce))
       <==> && auth.Some? && lib.parseAuthorization(auth.value).Some?
            && var token := lib.parseAuthorization(auth.value).value;
            && token.challengeDigest == digest
            && exists ch, e :: && Presentable(lib, ktLogPub, keys, recent, token, kt, key, ch, e)
                               && lib.verifyToken(e.key, token, ch) == Some(nonce) && e.epoch == epoch
  {
    LookupFindsFirst(lib, recent, digest);
    if auth.Some? && lib.parseAuthorization(auth.value).Some?
       && lib.parseAuthorization(auth.value).value.challengeDigest == digest
    {
      var token := lib.parseAuthorization(auth.value).value;
      var ch, e := ChallengeForDigest(lib, recent, digest), KeyOf(lib, ktLogPub, keys, token.tokenKeyId, kt, key);
      forall ch', e' | Presentable(lib, ktLogPub, keys, recent, token, kt, key, ch', e')
        ensures ch == Some(ch') && e == Some(e')
      {
      }
      if ch.Some? && e.Some? { assert Presentable(lib, ktLogPub, keys, recent, token, kt, key, ch.value, e.value); }
    }
  }

  /** And otherwise the reason is the first that applies: no token, a
      malformed one, no challenge with its digest, no key; all else is an invalid token. */
  lemma VerdictRefusesExactly(lib: GateLib, ktLogPub: bytes, keys: map<bytes, KeyEntry>, recent: seq<Challenge>,
                              auth: Option<string>, digest: bytes, kt: Option<KtResponse>, key: Option<IssuerKey>)
    ensures var v := Verdict(lib, ktLogPub, keys, recent, auth, digest, kt, key);
            var parsed := if auth.Some? then lib.parseAuthorization(auth.value) else None;
            var matches := parsed.Some? && parsed.value.challengeDigest == digest;
            var known := exists i :: 0 <= i < |recent| && lib.digest(recent[i]) == digest;
            && (v == Err(MissingToken) <==> auth.None?)
            && (v == Err(Malformed) <==> auth.Some? && parsed.None?)
            && (v == Err(UnknownChallenge) <==> matches && !known)
            && (v == Err(UnknownKey) <==> matches && known && parsed.value.tokenKeyId !in keys
                                          && Resolve(lib, ktLogPub, parsed.value.tokenKeyId, kt, key).None?)
            && v != Err(DoubleSpend) && v != Err(RedeemerDown)
  {
    LookupFindsFirst(lib, recent, digest);
  }

  class EatPassGate {
    const lib: GateLib
    const ktLogPub: bytes
    ghost const boot: (bytes, KeyEntry)
    var keys: map<bytes, KeyEntry>
    var recent: seq<Challenge>
    ghost var issued: seq<Challenge>

    ghost predicate Valid()
      reads this
    {
      recent == Window(issued) && CacheSound(lib, ktLogPub, boot, keys)
    }

    constructor Bootstrap(lib: GateLib, ktLogPub: bytes, key: IssuerKey, tkid: bytes)
      requires lib.tokenKeyId(key) == Some(tkid)
      ensures Valid() && issued == [] && keys == map[tkid := KeyEntry(key, key.keyVersion)]
    {
      this.lib, this.ktLogPub := lib, ktLogPub;
      boot := (tkid, KeyEntry(key, key.keyVersion));
      keys := map[tkid := KeyEntry(key, key.keyVersion)];
      recent, issued := [], [];
    }

    method RegisterChallenge(ch: Challenge)
      requires Valid()
      modifies this`recent, this`issued
      ensures Valid() && issued == old(issued) + [ch]
      ensures recent == Last(issued, 128)
    {
      recent := recent + [ch];
      if |recent| > MAX_RECENT_CHALLENGES {
        var drop := |recent| - MAX_RECENT_CHALLENGES;
        recent := recent[drop..];
      }
      issued := issued + [ch];
      assert issued[..|issued| - 1] == old(issued);
      WindowIsLast(issued);
    }

    method KeyFor(tkid: bytes, kt: Option<KtResponse>, key: Option<IssuerKey>) returns (r: Option<KeyEntry>)
      requires Valid()
      modifies this`keys
      ensures Valid()
      ensures r == KeyOf(lib, ktLogPub, old(keys), tkid, kt, key)
      ensures keys == if r.Some? then old(keys)[tkid := r.value] else old(keys)
    {
      if tkid in keys {
        assert keys == keys[tkid := keys[tkid]];
        return Some(keys[tkid]);
      }
      r := Resolve(lib, ktLogPub, tkid, kt, key);
      if r.Some? {
        ResolveIsSound(lib, ktLogPub, tkid, kt, key);
        keys := keys[tkid := r.value];
      }
    }

    /** The token answers a challenge in the window under a cached key and carries `nonce`. */
    ghost predicate TokenBuys(token: Token, nonce: bytes)
      reads this
    {
      var ch := ChallengeForDigest(lib, recent, token.challengeDigest);
      && ch.Some? && token.tokenKeyId in keys
      && lib.verifyToken(keys[token.tokenKeyId].key, token, ch.value) == Some(nonce)
    }

    /** `verify_and_spend`; `status` is the redeemer's reply, if any arrived. */
    method VerifyAndSpend(auth: Option<string>, digest: bytes, kt: Option<KtResponse>, key: Option<IssuerKey>,
                          status: Option<nat>)
      returns (r: Result<bytes, Reject>)
      requires Valid()
      modifies this`keys
      ensures Valid()
      ensures var v := Verdict(lib, ktLogPub, old(keys), recent, auth, digest, kt, key);
              r == (if v.Err? then Err(v.error)
                    else match SpendStatus(status) case None => Ok(v.value.1) case Some(e) => Err(e))
      ensures forall t :: t in old(keys) ==> t in keys && keys[t] == old(keys)[t]
      ensures r.Ok? ==> Success(status)
      ensures var v := Verdict(lib, ktLogPub, old(keys), recent, auth, digest, kt, key);
              v.Ok? ==> && (r == Ok(v.value.1) <==> Success(status))
                        && (r == Err(DoubleSpend) <==> status == Some(409))
                        && (r == Err(RedeemerDown) <==> !Success(status) && status != Some(409))
      ensures r.Ok? ==> auth.Some? && lib.parseAuthorization(auth.value).Some?
      ensures r.Ok? ==> TokenBuys(lib.parseAuthorization(auth.value).value, r.value)
    {
      if auth.None? { return Err(MissingToken); }
      var parsed := lib.parseAuthorization(auth.value);
      if parsed.None? { return Err(Malformed); }
      var token := parsed.value;
      if token.challengeDigest != digest { return Err(InvalidToken); }
      var ch := ChallengeForDigest(lib, recent, digest);
      if ch.None? { return Err(UnknownChallenge); }
      var entry := KeyFor(token.tokenKeyId, kt, key);
      if entry.None? { return Err(UnknownKey); }
      var nonce := lib.verifyToken(entry.value.key, token, ch.value);
      if nonce.None? { return Err(InvalidToken); }
      var outcome := SpendStatus(status);
      if outcome.Some? { return Err(outcome.value); }
      return Ok(nonce.value);
    }
  }

  lemma ResolveIsSound(lib: GateLib, ktLogPub: bytes, tkid: bytes, kt: Option<KtResponse>, key: Option<IssuerKey>)
    requires Resolve(lib, ktLogPub, tkid, kt, key).Some?
    ensures var e := Resolve(lib, ktLogPub, tkid, kt, key).value;
            && lib.tokenKeyId(e.key) == Some(tkid) && FromVerifiedLog(lib, ktLogPub, tkid, e)
            && key == Some(e.key)
            && exists rec :: FirstRecord(kt.value.records, lib.hex(tkid), rec) && rec.keyVersion == e.epoch
  {
  }

  /** A key is resolved exactly when a verified log under the pinned log key
      lists the id and the issuer serves a key with that id. */
  lemma ResolveSucceedsExactly(lib: GateLib, ktLogPub: bytes, tkid: bytes, kt: Option<KtResponse>,
                               key: Option<IssuerKey>)
    ensures Resolve(lib, ktLogPub, tkid, kt, key).Some?
       <==> && kt.Some? && kt.value.logPub == ktLogPub && lib.verifyLog(ktLogPub, kt.value.records, kt.value.signedHead)
            && (exists rec :: rec in kt.value.records && SameIgnoringCase(rec.tokenKeyId, lib.hex(tkid)))
            && key.Some? && lib.tokenKeyId(key.value) == Some(tkid)
  {
  }
}
