/** The registry's glob matcher: `*` matches any run of bytes. */
module Glob {
  import opened Common

  const STAR: byte := 42

  lemma StarIsText()
    ensures STAR as char == '*'
  {
  }

  function Stars(p: bytes): nat
  {
    if p == [] then 0 else (if p[0] == STAR then 1 else 0) + Stars(p[1..])
  }

  /** The pattern with its i-th star replaced by the i-th run. */
  function Fill(p: bytes, runs: seq<bytes>): bytes
    requires |runs| == Stars(p)
  {
    if p == [] then []
    else if p[0] == STAR then runs[0] + Fill(p[1..], runs[1..])
    else [p[0]] + Fill(p[1..], runs)
  }

  /** What a pattern means: the value is the pattern with some run at every star. */
  ghost predicate Matches(p: bytes, v: bytes)
  {
    exists runs: seq<bytes> :: |runs| == Stars(p) && Fill(p, runs) == v
  }

  lemma MatchesEmpty(v: bytes)
    ensures Matches([], v) <==> v == []
  {
  }

  lemma MatchesLiteral(p: bytes, v: bytes)
    requires p != [] && p[0] != STAR
    ensures Matches(p, v) <==> v != [] && v[0] == p[0] && Matches(p[1..], v[1..])
  {
    if Matches(p, v) {
      var runs :| |runs| == Stars(p) && Fill(p, runs) == v;
      assert v[1..] == Fill(p[1..], runs);
    }
    if v != [] && v[0] == p[0] && Matches(p[1..], v[1..]) {
      var runs :| |runs| == Stars(p[1..]) && Fill(p[1..], runs) == v[1..];
      assert Fill(p, runs) == [v[0]] + v[1..] == v;
    }
  }

  lemma MatchesStar(p: bytes, v: bytes)
    requires p != [] && p[0] == STAR
    ensures Matches(p, v) <==> exists k :: 0 <= k <= |v| && Matches(p[1..], v[k..])
  {
    if Matches(p, v) {
      var runs :| |runs| == Stars(p) && Fill(p, runs) == v;
      var k := |runs[0]|;
      assert v[k..] == Fill(p[1..], runs[1..]);
      assert Matches(p[1..], v[k..]);
    }
    if k :| 0 <= k <= |v| && Matches(p[1..], v[k..]) {
      var runs :| |runs| == Stars(p[1..]) && Fill(p[1..], runs) == v[k..];
      var all := [v[..k]] + runs;
      assert all[1..] == runs;
      assert Fill(p, all) == v[..k] + v[k..] == v;
    }
  }

  /** A run of stars means what one star means. */
  lemma StarStar(p: bytes, v: bytes)
    requires |p| >= 2 && p[0] == STAR && p[1] == STAR
    ensures Matches(p, v) <==> Matches(p[1..], v)
  {
    MatchesStar(p, v);
    if k :| 0 <= k <= |v| && Matches(p[1..], v[k..]) {
      MatchesStar(p[1..], v[k..]);
      var j :| 0 <= j <= |v[k..]| && Matches(p[1..][1..], v[k..][j..]);
      assert v[k..][j..] == v[k + j..];
      MatchesStar(p[1..], v);
    }
    if Matches(p[1..], v) { assert v[0..] == v; }
  }

  /** `glob_match`, with the loops of the source. */
  method GlobMatch(p: bytes, v: bytes) returns (b: bool)
    ensures b <==> Matches(p, v)
    decreases |p|
  {
    if p == [] {
      MatchesEmpty(v);
      return v == [];
    }
    if p[0] == STAR {
      var i := 1;
      while i < |p| && p[i] == STAR
        invariant 1 <= i <= |p| && p[i - 1] == STAR
        invariant Matches(p, v) <==> Matches(p[i - 1..], v)
      {
        StarStar(p[i - 1..], v);
        assert p[i - 1..][1..] == p[i..];
        i := i + 1;
      }
      var rest := p[i..];
      MatchesStar(p[i - 1..], v);
      assert p[i - 1..][1..] == rest;
      if rest == [] {
        MatchesEmpty(v[|v|..]);
        return true;
      }
      for k := 0 to |v| + 1
        invariant forall j :: 0 <= j < k ==> !Matches(rest, v[j..])
      {
        var found := GlobMatch(rest, v[k..]);
        if found { return true; }
      }
      return false;
    }
    MatchesLiteral(p, v);
    if v != [] && p[0] == v[0] {
      b := GlobMatch(p[1..], v[1..]);
    } else {
      b := false;
    }
  }

  /** The pattern with every run of stars collapsed to one. */
  function Collapse(p: bytes): bytes
  {
    if |p| < 2 then p
    else if p[0] == STAR && p[1] == STAR then Collapse(p[1..])
    else [p[0]] + Collapse(p[1..])
  }

  /** It has no two stars in a row, and begins as the pattern does. */
  lemma {:induction false} CollapseLeavesNoRuns(p: bytes)
    ensures var q := Collapse(p);
            && (p == [] <==> q == []) && (p != [] ==> q[0] == p[0])
            && forall i :: 0 <= i < |q| - 1 ==> q[i] != STAR || q[i + 1] != STAR
  {
    if |p| >= 2 {
      CollapseLeavesNoRuns(p[1..]);
      var q, rest := Collapse(p), Collapse(p[1..]);
      if p[0] != STAR || p[1] != STAR {
        forall i | 0 <= i < |q| - 1 ensures q[i] != STAR || q[i + 1] != STAR {
          if i > 0 { assert q[i] == rest[i - 1] && q[i + 1] == rest[i]; }
        }
      }
    }
  }

  /** Collapsing repeated stars changes nothing. */
  lemma {:induction false} CollapseKeepsMeaning(p: bytes, v: bytes)
    ensures Matches(p, v) <==> Matches(Collapse(p), v)
    decreases |p|
  {
    if |p| >= 2 {
      var q := Collapse(p[1..]);
      if p[0] == STAR && p[1] == STAR {
        StarStar(p, v);
        CollapseKeepsMeaning(p[1..], v);
      } else if p[0] == STAR {
        MatchesStar(p, v);
        MatchesStar(Collapse(p), v);
        forall k | 0 <= k <= |v| ensures Matches(p[1..], v[k..]) <==> Matches(q, v[k..]) {
          CollapseKeepsMeaning(p[1..], v[k..]);
        }
      } else {
        MatchesLiteral(p, v);
        MatchesLiteral(Collapse(p), v);
        if v != [] { CollapseKeepsMeaning(p[1..], v[1..]); }
      }
    }
  }

  /** A pattern without a star matches only itself. */
  lemma {:induction false} StarFreeIsLiteral(p: bytes, v: bytes)
    requires STAR !in p
    ensures Matches(p, v) <==> v == p
    decreases |p|
  {
    if p == [] {
      MatchesEmpty(v);
    } else {
      MatchesLiteral(p, v);
      if v != [] {
        StarFreeIsLiteral(p[1..], v[1..]);
        assert p == [p[0]] + p[1..] && v == [v[0]] + v[1..];
      }
    }
  }
}
