/** The domain-separated encoding behind an email challenge's redemption context. */
module EmailIntent {
  import opened Common

  /** The bytes of "cvm/tool-gate/email/v1" and the NUL that closes the domain. */
  const DOMAIN: bytes :=
    [99, 118, 109, 47, 116, 111, 111, 108, 45, 103, 97, 116, 101, 47, 101, 109, 97, 105, 108, 47, 118, 49, 0]

  datatype Intent = Intent(nonce: bytes, to: bytes, subject: bytes, body: bytes)

  function Encoding(i: Intent): bytes
  {
    DOMAIN + i.nonce + i.to + [0] + i.subject + [0] + i.body
  }

  /** `email_redemption_context_bound`, feeding the hasher piece by piece. */
  method RedemptionContext(sha256: bytes -> bytes, i: Intent) returns (context: bytes)
    ensures context == sha256(Encoding(i))
  {
    var fed: bytes := DOMAIN;
    fed := fed + i.nonce;
    fed := fed + i.to;
    fed := fed + [0];
    fed := fed + i.subject;
    fed := fed + [0];
    fed := fed + i.body;
    context := sha256(fed);
  }

  predicate NulFree(s: bytes) { 0 !in s }

  /** A NUL-free field can be read back up to its terminator. */
  lemma SplitAtNul(a: bytes, ra: bytes, b: bytes, rb: bytes)
    requires NulFree(a) && NulFree(b) && a + [0] + ra == b + [0] + rb
    ensures a == b && ra == rb
  {
    var x, y := a + [0] + ra, b + [0] + rb;
    assert x[|a|] == 0 && y[|b|] == 0;
    assert forall k :: 0 <= k < |b| ==> y[k] == b[k];
    assert forall k :: 0 <= k < |a| ==> x[k] == a[k];
    assert a == x[..|a|] && b == y[..|b|];
    assert ra == x[|a| + 1..] && rb == y[|b| + 1..];
  }

  lemma DropPrefix(p: bytes, q: bytes, a: bytes, b: bytes)
    requires |p| == |q| && p + a == q + b
    ensures p == q && a == b
  {
    assert p == (p + a)[..|p|] && q == (q + b)[..|q|];
    assert a == (p + a)[|p|..] && b == (q + b)[|q|..];
  }

  /** With an injective hash a context names one intent, among those whose
      recipient and subject contain no NUL. */
  lemma ContextDeterminesIntent(sha256: bytes -> bytes, a: Intent, b: Intent)
    requires forall x: bytes, y: bytes :: sha256(x) == sha256(y) ==> x == y
    requires |a.nonce| == 32 == |b.nonce|
    requires NulFree(a.to) && NulFree(a.subject) && NulFree(b.to) && NulFree(b.subject)
    requires sha256(Encoding(a)) == sha256(Encoding(b))
    ensures a == b
  {
    assert Encoding(a) == Encoding(b);
    Regroup(a);
    Regroup(b);
    DropPrefix(DOMAIN + a.nonce, DOMAIN + b.nonce, Tail(a), Tail(b));
    DropPrefix(DOMAIN, DOMAIN, a.nonce, b.nonce);
    SplitAtNul(a.to, a.subject + [0] + a.body, b.to, b.subject + [0] + b.body);
    SplitAtNul(a.subject, a.body, b.subject, b.body);
  }

  function Tail(i: Intent): bytes { i.to + [0] + (i.subject + [0] + i.body) }

  lemma Regroup(i: Intent)
    ensures Encoding(i) == (DOMAIN + i.nonce) + Tail(i)
  {
  }

  /** Over all intents, NULs included, an intent is the only one with its
      encoding exactly when none of its three fields contains a NUL. */
  lemma EncodingUniqueExactly(i: Intent)
    requires |i.nonce| == 32
    ensures (forall o: Intent :: |o.nonce| == 32 && Encoding(o) == Encoding(i) ==> o == i)
       <==> NulFree(i.to) && NulFree(i.subject) && NulFree(i.body)
  {
    if NulFree(i.to) && NulFree(i.subject) && NulFree(i.body) {
      forall o: Intent | |o.nonce| == 32 && Encoding(o) == Encoding(i) ensures o == i { NulFreeIsUnique(i, o); }
    } else {
      var o := Twin(i);
      assert |o.nonce| == 32 && Encoding(o) == Encoding(i) && o != i;
    }
  }

  lemma NulFreeIsUnique(i: Intent, o: Intent)
    requires |i.nonce| == 32 == |o.nonce| && Encoding(o) == Encoding(i)
    requires NulFree(i.to) && NulFree(i.subject) && NulFree(i.body)
    ensures o == i
  {
    Regroup(i);
    Regroup(o);
    DropPrefix(DOMAIN + i.nonce, DOMAIN + o.nonce, Tail(i), Tail(o));
    DropPrefix(DOMAIN, DOMAIN, i.nonce, o.nonce);
    NulsOfTail(i);
    var t := Tail(i);
    assert t[|o.to|] == 0 && t[|o.to| + 1 + |o.subject|] == 0 by { assert t == Tail(o); }
    FieldsOfTail(i);
    FieldsOfTail(o);
  }

  /** The only NULs in the tail of a NUL-free intent are the two separators. */
  lemma NulsOfTail(i: Intent)
    requires NulFree(i.to) && NulFree(i.subject) && NulFree(i.body)
    ensures forall k :: 0 <= k < |Tail(i)| && Tail(i)[k] == 0 ==> k == |i.to| || k == |i.to| + 1 + |i.subject|
  {
  }

  lemma FieldsOfTail(i: Intent)
    ensures var t := Tail(i);
            && i.to == t[..|i.to|]
            && i.subject == t[|i.to| + 1..|i.to| + 1 + |i.subject|]
            && i.body == t[|i.to| + |i.subject| + 2..]
  {
  }

  ghost function FirstNul(s: bytes): (k: nat)
    requires !NulFree(s)
    ensures k < |s| && s[k] == 0
  {
    var k :| 0 <= k < |s| && s[k] == 0; k
  }

  /** Another intent with the same encoding: move a field boundary to a NUL inside a field. */
  lemma Twin(i: Intent) returns (o: Intent)
    requires !(NulFree(i.to) && NulFree(i.subject) && NulFree(i.body))
    ensures o.nonce == i.nonce && o != i && Encoding(o) == Encoding(i)
  {
    if !NulFree(i.to) {
      var k := FirstNul(i.to);
      o := Intent(i.nonce, i.to[..k], i.to[k + 1..] + [0] + i.subject, i.body);
      assert i.to == i.to[..k] + [0] + i.to[k + 1..];
      assert Tail(o) == Tail(i);
    } else if !NulFree(i.subject) {
      var k := FirstNul(i.subject);
      o := Intent(i.nonce, i.to, i.subject[..k], i.subject[k + 1..] + [0] + i.body);
      assert i.subject == i.subject[..k] + [0] + i.subject[k + 1..];
      assert Tail(o) == Tail(i);
    } else {
      var k := FirstNul(i.body);
      o := Intent(i.nonce, i.to, i.subject + [0] + i.body[..k], i.body[k + 1..]);
      assert i.body == i.body[..k] + [0] + i.body[k + 1..];
      assert Tail(o) == Tail(i);
    }
    Regroup(i);
    Regroup(o);
  }

  // ------------------------------------------------------------------
  // Reading an encoding
  // ------------------------------------------------------------------

  function UpToNul(s: bytes): bytes { if s == [] || s[0] == 0 then [] else [s[0]] + UpToNul(s[1..]) }

  /** The fields in the order they are bound: domain, nonce, recipient, subject, body. */
  function Read(s: bytes): Option<Intent>
  {
    if |s| < 55 || s[..23] != DOMAIN then None
    else
      var nonce, rest := s[23..55], s[55..];
      var to := UpToNul(rest);
      if |to| >= |rest| then None
      else
        var rest' := rest[|to| + 1..];
        var subject := UpToNul(rest');
        if |subject| >= |rest'| then None else Some(Intent(nonce, to, subject, rest'[|subject| + 1..]))
  }

  lemma {:induction false} UpToNulStops(a: bytes, rest: bytes)
    requires NulFree(a)
    ensures UpToNul(a + [0] + rest) == a
  {
    var s := a + [0] + rest;
    if a != [] {
      assert s[1..] == a[1..] + [0] + rest;
      UpToNulStops(a[1..], rest);
      assert a == [a[0]] + a[1..];
    }
  }

  /** An intent with NUL-free recipient and subject can be read back, field by field, from what is hashed. */
  lemma EncodingReadsBack(i: Intent)
    requires |i.nonce| == 32 && NulFree(i.to) && NulFree(i.subject)
    ensures Read(Encoding(i)) == Some(i)
  {
    var s := Encoding(i);
    Regroup(i);
    assert s[..23] == DOMAIN && s[23..55] == i.nonce && s[55..] == Tail(i);
    var inner := i.subject + [0] + i.body;
    UpToNulStops(i.to, inner);
    assert Tail(i) == i.to + [0] + inner;
    assert Tail(i)[|i.to| + 1..] == inner;
    UpToNulStops(i.subject, i.body);
    assert inner[|i.subject| + 1..] == i.body;
  }

  /** The domain is the text "cvm/tool-gate/email/v1" and a NUL. */
  lemma DomainIsText()
    ensures |DOMAIN| == 23 && DOMAIN[22] == 0
    ensures forall k :: 0 <= k < 22 ==> DOMAIN[k] as char == "cvm/tool-gate/email/v1"[k]
  {
  }
}
