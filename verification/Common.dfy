/** Vocabulary shared by every module of the model. */
module Common {

  /** One octet, and the byte strings the services hash, sign and store. */
  type byte = x: int | 0 <= x < 256
  type bytes = seq<byte>

  datatype Option<+T> = None | Some(value: T)

  datatype Result<+T, +E> = Ok(value: T) | Err(error: E)

  const U64_MAX: nat := 0xFFFF_FFFF_FFFF_FFFF

  function Min(a: int, b: int): int { if a <= b then a else b }

  function Max(a: int, b: int): int { if a <= b then b else a }

  /** `u64::saturating_add`. */
  function SaturatingAdd(a: nat, b: nat): nat { Min(a + b, U64_MAX) }

  /** `u64::saturating_sub`. */
  function SaturatingSub(a: nat, b: nat): nat { if a < b then 0 else a - b }

  /** A map read that falls back to a default, as `entry(..).or_default()` does. */
  function GetOr<K, V>(m: map<K, V>, k: K, default: V): V
  {
    if k in m then m[k] else default
  }

  ghost predicate Distinct<T>(s: seq<T>)
  {
    forall i, j :: 0 <= i < j < |s| ==> s[i] != s[j]
  }

  /** The Unicode White_Space property, which `str::trim` strips. */
  predicate IsWhitespace(c: char)
  {
    || '\t' <= c <= '\r'
    || c in {' ', '\U{0085}', '\U{00A0}', '\U{1680}', '\U{2028}', '\U{2029}',
             '\U{202F}', '\U{205F}', '\U{3000}'}
    || '\U{2000}' <= c <= '\U{200A}'
  }

  function TrimStart(s: string): string
  {
    if s != [] && IsWhitespace(s[0]) then TrimStart(s[1..]) else s
  }

  function TrimEnd(s: string): string
  {
    if s != [] && IsWhitespace(s[|s| - 1]) then TrimEnd(s[..|s| - 1]) else s
  }

  /** `str::trim`. */
  function Trim(s: string): string { TrimEnd(TrimStart(s)) }

  function AsciiLower(s: string): string
  {
    seq(|s|, i requires 0 <= i < |s| =>
      if 'A' <= s[i] <= 'Z' then ((s[i] as int) + 32) as char else s[i])
  }

  /** The 25 characters of that property, by code point. */
  const WHITE_SPACE: seq<int> := [
    0x09, 0x0A, 0x0B, 0x0C, 0x0D, 0x20, 0x85, 0xA0, 0x1680, 0x2000, 0x2001, 0x2002, 0x2003, 0x2004, 0x2005, 0x2006,
    0x2007, 0x2008, 0x2009, 0x200A, 0x2028, 0x2029, 0x202F, 0x205F, 0x3000]

  lemma WhitespaceExactly(c: char)
    ensures IsWhitespace(c) <==> c as int in WHITE_SPACE
  {
    var n := c as int;
    if 0x09 <= n <= 0x0D { assert WHITE_SPACE[n - 0x09] == n; }
    if 0x2000 <= n <= 0x200A { assert WHITE_SPACE[9 + n - 0x2000] == n; }
    assert WHITE_SPACE[5] == 0x20 && WHITE_SPACE[6] == 0x85 && WHITE_SPACE[7] == 0xA0 && WHITE_SPACE[8] == 0x1680;
    assert WHITE_SPACE[20] == 0x2028 && WHITE_SPACE[21] == 0x2029 && WHITE_SPACE[22] == 0x202F;
    assert WHITE_SPACE[23] == 0x205F && WHITE_SPACE[24] == 0x3000;
  }

  // ------------------------------------------------------------------
  // What trimming means
  // ------------------------------------------------------------------

  predicate AllSpace(s: string) { forall c :: c in s ==> IsWhitespace(c) }

  predicate NoEdgeSpace(s: string) { s == [] || (!IsWhitespace(s[0]) && !IsWhitespace(s[|s| - 1])) }

  lemma {:induction false} TrimStartSplits(s: string) returns (a: string)
    ensures s == a + TrimStart(s) && AllSpace(a)
    ensures TrimStart(s) == [] || !IsWhitespace(TrimStart(s)[0])
  {
    a := [];
    if s != [] && IsWhitespace(s[0]) {
      var rest := TrimStartSplits(s[1..]);
      a := [s[0]] + rest;
    }
  }

  lemma {:induction false} TrimEndSplits(s: string) returns (z: string)
    ensures s == TrimEnd(s) + z && AllSpace(z)
    ensures TrimEnd(s) == [] || !IsWhitespace(TrimEnd(s)[|TrimEnd(s)| - 1])
  {
    z := [];
    if s != [] && IsWhitespace(s[|s| - 1]) {
      var rest := TrimEndSplits(s[..|s| - 1]);
      z := rest + [s[|s| - 1]];
    }
  }

  /** `Trim` takes whitespace off both ends and leaves none there. */
  lemma TrimSplits(s: string) returns (a: string, z: string)
    ensures s == a + Trim(s) + z && AllSpace(a) && AllSpace(z) && NoEdgeSpace(Trim(s))
  {
    a := TrimStartSplits(s);
    z := TrimEndSplits(TrimStart(s));
    assert TrimStart(s) == Trim(s) + z;
    if Trim(s) != [] { assert TrimStart(s)[0] == Trim(s)[0]; }
  }

  lemma {:induction false} TrimStartDrops(a: string, s: string)
    requires AllSpace(a) && (s == [] || !IsWhitespace(s[0]))
    ensures TrimStart(a + s) == s
  {
    if a == [] {
      assert a + s == s;
    } else {
      assert (a + s)[1..] == a[1..] + s;
      TrimStartDrops(a[1..], s);
    }
  }

  lemma {:induction false} TrimEndDrops(s: string, z: string)
    requires AllSpace(z) && (s == [] || !IsWhitespace(s[|s| - 1]))
    ensures TrimEnd(s + z) == s
  {
    if z == [] {
      assert s + z == s;
    } else {
      var n := |z| - 1;
      assert (s + z)[..|s + z| - 1] == s + z[..n];
      TrimEndDrops(s, z[..n]);
    }
  }

  /** And it is the only such part. */
  lemma TrimUnique(a: string, d: string, z: string)
    requires AllSpace(a) && AllSpace(z) && NoEdgeSpace(d)
    ensures Trim(a + d + z) == d
  {
    if d == [] {
      assert a + d + z == (a + z) + [];
      TrimStartDrops(a + z, []);
    } else {
      assert a + d + z == a + (d + z);
      TrimStartDrops(a, d + z);
      TrimEndDrops(d, z);
    }
  }

  lemma TrimIdempotent(s: string)
    ensures Trim(Trim(s)) == Trim(s)
  {
    var _, _ := TrimSplits(s);
    TrimUnique([], Trim(s), []);
    assert [] + Trim(s) + [] == Trim(s);
  }

  // ------------------------------------------------------------------
  // The ASCII letters and digits
  // ------------------------------------------------------------------

  const LOWER := "abcdefghijklmnopqrstuvwxyz"
  const UPPER := "ABCDEFGHIJKLMNOPQRSTUVWXYZ"
  const DIGITS := "0123456789"

  lemma LowerExactly(c: char)
    ensures c in LOWER <==> 'a' <= c <= 'z'
  {
    if 'a' <= c <= 'z' { assert LOWER[c as int - 'a' as int] == c; }
  }

  lemma UpperExactly(c: char)
    ensures c in UPPER <==> 'A' <= c <= 'Z'
  {
    if 'A' <= c <= 'Z' { assert UPPER[c as int - 'A' as int] == c; }
  }

  lemma DigitsExactly(c: char)
    ensures c in DIGITS <==> '0' <= c <= '9'
  {
    if '0' <= c <= '9' { assert DIGITS[c as int - '0' as int] == c; }
  }
}
