/** The percent codec (sections 2.1 and 2.3 of RFC 3986) and the query
    parameter it carries.  Everything is on the UTF-8 bytes of the strings;
    the separators are ASCII, so splitting bytes is splitting characters. */
module PercentCodec {
  import opened Common

  const PERCENT: byte := 37
  const AMPERSAND: byte := 38
  const PLUS: byte := 43
  const EQUALS: byte := 61
  const QUESTION: byte := 63

  predicate Unreserved(b: byte)
  {
    || 65 <= b <= 90 || 97 <= b <= 122 || 48 <= b <= 57    // A-Z a-z 0-9
    || b == 45 || b == 95 || b == 46 || b == 126           // - _ . ~
  }

  function UpperHex(n: nat): byte
    requires n < 16
  {
    if n < 10 then 48 + n else 55 + n
  }

  function HexValue(b: byte): Option<nat>
  {
    if 48 <= b <= 57 then Some(b - 48)
    else if 65 <= b <= 70 then Some(b - 55)
    else if 97 <= b <= 102 then Some(b - 87)
    else None
  }

  /** `u8::from_str_radix` on two bytes; like every Rust integer parser it takes a leading '+'. */
  function ParseHexPair(a: byte, b: byte): Option<byte>
  {
    match HexValue(b)
    case None => None
    case Some(low) =>
      if a == PLUS then Some(low)
      else match HexValue(a)
        case None => None
        case Some(high) => if high * 16 + low < 256 then Some(high * 16 + low) else None
  }

  function EncodeByte(b: byte): bytes
  {
    if Unreserved(b) then [b] else [PERCENT, UpperHex(b / 16), UpperHex(b % 16)]
  }

  function Encoded(s: bytes): bytes
  {
    if s == [] then [] else EncodeByte(s[0]) + Encoded(s[1..])
  }

  function Decoded(s: bytes): bytes
  {
    if s == [] then []
    else if s[0] == PLUS then [32] + Decoded(s[1..])
    else if s[0] == PERCENT && |s| > 2 && ParseHexPair(s[1], s[2]).Some? then
      [ParseHexPair(s[1], s[2]).value] + Decoded(s[3..])
    else [s[0]] + Decoded(s[1..])
  }

  lemma Assoc(a: bytes, b: bytes, c: bytes)
    ensures (a + b) + c == a + (b + c)
  {
  }

  method UrlEncodeComponent(value: bytes) returns (out: bytes)
    ensures out == Encoded(value)
  {
    out := [];
    for i := 0 to |value|
      invariant out + Encoded(value[i..]) == Encoded(value)
    {
      var pushed: bytes;
      if Unreserved(value[i]) {
        pushed := [value[i]];
      } else {
        pushed := [PERCENT, UpperHex(value[i] / 16), UpperHex(value[i] % 16)];
      }
      assert value[i..][1..] == value[i + 1..];
      Assoc(out, pushed, Encoded(value[i + 1..]));
      out := out + pushed;
    }
  }

  /** The index loop of `percent_decode`, before the lossy conversion to a string. */
  method PercentDecode(value: bytes) returns (out: bytes)
    ensures out == Decoded(value)
  {
    out := [];
    var i := 0;
    while i < |value|
      invariant 0 <= i <= |value|
      invariant out + Decoded(value[i..]) == Decoded(value)
    {
      var pushed, step := value[i], 1;
      if value[i] == PLUS {
        pushed := 32;
      } else if value[i] == PERCENT && i + 2 < |value| {
        var parsed := ParseHexPair(value[i + 1], value[i + 2]);
        if parsed.Some? {
          pushed, step := parsed.value, 3;
        }
      }
      DecodedStep(value[i..], pushed, step);
      assert value[i..][step..] == value[i + step..];
      Assoc(out, [pushed], Decoded(value[i + step..]));
      out := out + [pushed];
      i := i + step;
    }
  }

  lemma DecodedStep(s: bytes, pushed: byte, step: nat)
    requires s != [] && 1 <= step <= |s|
    requires var escape := s[0] == PERCENT && |s| > 2 && ParseHexPair(s[1], s[2]).Some?;
             && step == (if escape then 3 else 1)
             && pushed == if s[0] == PLUS then 32 else if escape then ParseHexPair(s[1], s[2]).value else s[0]
    ensures Decoded(s) == [pushed] + Decoded(s[step..])
  {
  }

  lemma HexRoundTrip(b: byte)
    ensures ParseHexPair(UpperHex(b / 16), UpperHex(b % 16)) == Some(b)
  {
  }

  /** The decoder undoes the encoder on every byte string. */
  lemma {:induction false} DecodeInvertsEncode(s: bytes)
    ensures Decoded(Encoded(s)) == s
  {
    if s != [] {
      var b, rest := s[0], Encoded(s[1..]);
      DecodeInvertsEncode(s[1..]);
      HexRoundTrip(b);
      var e := EncodeByte(b) + rest;
      if Unreserved(b) {
        assert e[1..] == rest;
      } else {
        assert e[0] == PERCENT && e[1] == UpperHex(b / 16) && e[2] == UpperHex(b % 16);
        assert e[3..] == rest;
      }
      assert s == [b] + s[1..];
    }
  }

  /** Encoder output is unreserved characters and percent signs: no '&', '=', '+' or '?'. */
  lemma {:induction false} EncodedIsClean(s: bytes)
    ensures forall b :: b in Encoded(s) ==> Unreserved(b) || b == PERCENT
  {
    if s != [] {
      EncodedIsClean(s[1..]);
      assert forall b :: b in EncodeByte(s[0]) ==> Unreserved(b) || b == PERCENT;
    }
  }

  lemma {:induction false} EncodedUnreserved(s: bytes)
    requires forall b :: b in s ==> Unreserved(b)
    ensures Encoded(s) == s
  {
    if s != [] {
      EncodedUnreserved(s[1..]);
      assert s == [s[0]] + s[1..];
    }
  }

  // ------------------------------------------------------------------
  // The two directions, byte by byte
  // ------------------------------------------------------------------

  /** The unreserved bytes are the ASCII letters and digits and four marks. */
  lemma UnreservedExactly(b: byte)
    ensures var c := b as char; Unreserved(b) <==> c in UPPER || c in LOWER || c in DIGITS || c in "-_.~"
  {
    var c := b as char;
    UpperExactly(c);
    LowerExactly(c);
    DigitsExactly(c);
  }

  /** Unreserved bytes stand for themselves; any other is a percent sign and its two hex digits in upper case. */
  lemma EncodeByteExactly(b: byte)
    ensures Unreserved(b) ==> EncodeByte(b) == [b]
    ensures !Unreserved(b) ==>
              && |EncodeByte(b)| == 3 && EncodeByte(b)[0] as char == '%'
              && EncodeByte(b)[1] as char == "0123456789ABCDEF"[b / 16]
              && EncodeByte(b)[2] as char == "0123456789ABCDEF"[b % 16]
  {
  }

  predicate HexDigit(b: byte) { 48 <= b <= 57 || 65 <= b <= 70 || 97 <= b <= 102 }

  /** Two bytes parse exactly if the second is a hex digit and the first one too, or a plus sign. */
  lemma ParsesExactly(a: byte, b: byte)
    ensures ParseHexPair(a, b).Some? <==> HexDigit(b) && (HexDigit(a) || a as char == '+')
  {
  }

  /** A percent sign that no hex pair follows stands for itself, as does any other byte but the plus sign. */
  lemma StrayBytesStay(s: bytes)
    requires s != [] && s[0] as char != '+'
    requires s[0] as char == '%' ==> |s| <= 2 || !HexDigit(s[2]) || !(HexDigit(s[1]) || s[1] as char == '+')
    ensures Decoded(s) == [s[0]] + Decoded(s[1..])
  {
    if |s| > 2 { ParsesExactly(s[1], s[2]); }
  }

  /** The form encoding, which writes a space as a plus sign. */
  function FormEncoded(s: bytes): bytes
  {
    if s == [] then [] else (if s[0] as char == ' ' then [PLUS] else EncodeByte(s[0])) + FormEncoded(s[1..])
  }

  /** The decoder reads that one back as well. */
  lemma {:induction false} DecodeInvertsFormEncode(s: bytes)
    ensures Decoded(FormEncoded(s)) == s
  {
    if s != [] {
      var b, rest := s[0], FormEncoded(s[1..]);
      DecodeInvertsFormEncode(s[1..]);
      if b as char == ' ' {
        assert ([PLUS] + rest)[1..] == rest;
      } else {
        HexRoundTrip(b);
        var e := EncodeByte(b) + rest;
        if Unreserved(b) { assert e[1..] == rest; } else { assert e[3..] == rest; }
      }
      assert s == [b] + s[1..];
    }
  }

  // ------------------------------------------------------------------
  // Query parameters
  // ------------------------------------------------------------------

  /** `split_once`: around the first separator, if there is one. */
  function SplitOnce(s: bytes, sep: byte): Option<(bytes, bytes)>
  {
    if s == [] then None
    else if s[0] == sep then Some(([], s[1..]))
    else match SplitOnce(s[1..], sep)
      case None => None
      case Some((a, b)) => Some(([s[0]] + a, b))
  }

  function SplitAll(s: bytes, sep: byte): seq<bytes>
    decreases |s|
  {
    match SplitOnce(s, sep)
    case None => [s]
    case Some((a, b)) => SplitShrinks(s, sep); [a] + SplitAll(b, sep)
  }

  lemma {:induction false} SplitShrinks(s: bytes, sep: byte)
    ensures SplitOnce(s, sep).Some? ==> |SplitOnce(s, sep).value.1| < |s|
  {
    if s != [] && s[0] != sep { SplitShrinks(s[1..], sep); }
  }

  /** `String::from_utf8_lossy` after the decoder. */
  function PercentDecodeString(lossy: bytes -> bytes, s: bytes): bytes { lossy(Decoded(s)) }

  function FindPair(lossy: bytes -> bytes, pairs: seq<bytes>, name: bytes): Option<bytes>
  {
    if pairs == [] then None
    else
      var (key, value) := match SplitOnce(pairs[0], EQUALS) case Some(kv) => kv case None => (pairs[0], []);
      if PercentDecodeString(lossy, key) == name then Some(PercentDecodeString(lossy, value))
      else FindPair(lossy, pairs[1..], name)
  }

  function QueryParam(lossy: bytes -> bytes, path: bytes, name: bytes): Option<bytes>
  {
    match SplitOnce(path, QUESTION)
    case None => None
    case Some((_, query)) => FindPair(lossy, SplitAll(query, AMPERSAND), name)
  }

  const AGENT: bytes := [97, 103, 101, 110, 116]

  /** `with_optional_agent_query`. */
  function WithAgentQuery(url: bytes, agent: Option<bytes>): bytes
  {
    match agent
    case None => url
    case Some(a) => url + [QUESTION] + AGENT + [EQUALS] + Encoded(a)
  }

  lemma {:induction false} SplitsAtFirst(a: bytes, sep: byte, b: bytes)
    requires sep !in a
    ensures SplitOnce(a + [sep] + b, sep) == Some((a, b))
  {
    var s := a + [sep] + b;
    if a == [] {
      assert s[1..] == b;
    } else {
      assert s[1..] == a[1..] + [sep] + b;
      SplitsAtFirst(a[1..], sep, b);
      assert a == [a[0]] + a[1..];
    }
  }

  lemma {:induction false} NothingToSplit(a: bytes, sep: byte)
    requires sep !in a
    ensures SplitOnce(a, sep) == None
  {
    if a != [] { NothingToSplit(a[1..], sep); }
  }

  /** The agent a link is built for is the agent its query names: for every
      agent, and every base URL without a query of its own.  `lossy` need only
      leave the two strings, which are valid UTF-8, as they are. */
  lemma QueryRoundTrip(lossy: bytes -> bytes, url: bytes, agent: bytes)
    requires QUESTION !in url && lossy(agent) == agent && lossy(AGENT) == AGENT
    ensures QueryParam(lossy, WithAgentQuery(url, Some(agent)), AGENT) == Some(agent)
    ensures QueryParam(lossy, WithAgentQuery(url, None), AGENT) == None
  {
    var query := AGENT + [EQUALS] + Encoded(agent);
    EncodedIsClean(agent);
    assert WithAgentQuery(url, Some(agent)) == url + [QUESTION] + query;
    SplitsAtFirst(url, QUESTION, query);
    NothingToSplit(url, QUESTION);
    NothingToSplit(query, AMPERSAND);
    SplitsAtFirst(AGENT, EQUALS, Encoded(agent));
    EncodedUnreserved(AGENT);
    DecodeInvertsEncode(AGENT);
    DecodeInvertsEncode(agent);
  }

  // ------------------------------------------------------------------
  // Queries with any number of parameters
  // ------------------------------------------------------------------

  /** A parameter as it is written. */
  function Written(p: (bytes, bytes)): bytes { Encoded(p.0) + [EQUALS] + Encoded(p.1) }

  function WrittenAll(ps: seq<(bytes, bytes)>): bytes
  {
    if ps == [] then []
    else if |ps| == 1 then Written(ps[0])
    else Written(ps[0]) + [AMPERSAND] + WrittenAll(ps[1..])
  }

  /** The value of the first parameter with the name. */
  ghost predicate FirstValue(ps: seq<(bytes, bytes)>, name: bytes, value: bytes)
  {
    exists i :: && 0 <= i < |ps| && ps[i] == (name, value)
                && forall j :: 0 <= j < i ==> ps[j].0 != name
  }

  lemma WrittenIsClean(p: (bytes, bytes))
    ensures AMPERSAND !in Written(p) && SplitOnce(Written(p), EQUALS) == Some((Encoded(p.0), Encoded(p.1)))
  {
    EncodedIsClean(p.0);
    EncodedIsClean(p.1);
    SplitsAtFirst(Encoded(p.0), EQUALS, Encoded(p.1));
  }

  lemma {:induction false} SplitsWritten(ps: seq<(bytes, bytes)>)
    requires ps != []
    ensures SplitAll(WrittenAll(ps), AMPERSAND) == seq(|ps|, i requires 0 <= i < |ps| => Written(ps[i]))
  {
    WrittenIsClean(ps[0]);
    if |ps| == 1 {
      NothingToSplit(Written(ps[0]), AMPERSAND);
    } else {
      SplitsAtFirst(Written(ps[0]), AMPERSAND, WrittenAll(ps[1..]));
      SplitsWritten(ps[1..]);
    }
  }

  /** The separators and the parameter's name, as text. */
  lemma SeparatorsAreText()
    ensures QUESTION as char == '?' && AMPERSAND as char == '&' && EQUALS as char == '=' && PLUS as char == '+'
    ensures PERCENT as char == '%' && |AGENT| == 5 && forall i :: 0 <= i < 5 ==> AGENT[i] as char == "agent"[i]
  {
  }

  /** Keys and values survive the lossy conversion, as valid UTF-8 does. */
  ghost predicate Readable(lossy: bytes -> bytes, ps: seq<(bytes, bytes)>)
  {
    forall i :: 0 <= i < |ps| ==> lossy(ps[i].0) == ps[i].0 && lossy(ps[i].1) == ps[i].1
  }

  lemma {:induction false} FindsFirst(lossy: bytes -> bytes, ps: seq<(bytes, bytes)>, name: bytes)
    requires Readable(lossy, ps)
    ensures var r := FindPair(lossy, seq(|ps|, i requires 0 <= i < |ps| => Written(ps[i])), name);
            && (r.Some? ==> FirstValue(ps, name, r.value))
            && (r.None? ==> forall i :: 0 <= i < |ps| ==> ps[i].0 != name)
  {
    if ps != [] {
      var pairs, rest := seq(|ps|, i requires 0 <= i < |ps| => Written(ps[i])), ps[1..];
      WrittenIsClean(ps[0]);
      DecodeInvertsEncode(ps[0].0);
      DecodeInvertsEncode(ps[0].1);
      assert pairs[1..] == seq(|rest|, i requires 0 <= i < |rest| => Written(rest[i]));
      FindsFirst(lossy, rest, name);
      if ps[0].0 != name {
        var r := FindPair(lossy, pairs[1..], name);
        if r.Some? { FirstValueLater(ps, name, r.value); }
        assert forall i :: 0 < i < |ps| ==> ps[i] == rest[i - 1];
      } else {
        assert ps[0] == (name, ps[0].1);
      }
    }
  }

  lemma FirstValueLater(ps: seq<(bytes, bytes)>, name: bytes, value: bytes)
    requires ps != [] && ps[0].0 != name && FirstValue(ps[1..], name, value)
    ensures FirstValue(ps, name, value)
  {
    var rest := ps[1..];
    var i :| && 0 <= i < |rest| && rest[i] == (name, value) && forall j :: 0 <= j < i ==> rest[j].0 != name;
    assert ps[i + 1] == (name, value);
    assert forall j :: 0 < j < i + 1 ==> ps[j] == rest[j - 1];
  }

  /** Of any list of parameters written behind a path, `query_param` reads the
      value of the first with the name, wherever it stands, and none if there is none. */
  lemma QueryReadsFirst(lossy: bytes -> bytes, url: bytes, ps: seq<(bytes, bytes)>, name: bytes)
    requires QUESTION !in url && ps != [] && Readable(lossy, ps)
    ensures var r := QueryParam(lossy, url + [QUESTION] + WrittenAll(ps), name);
            && (r.Some? ==> FirstValue(ps, name, r.value))
            && (r.None? ==> forall i :: 0 <= i < |ps| ==> ps[i].0 != name)
  {
    SplitsAtFirst(url, QUESTION, WrittenAll(ps));
    SplitsWritten(ps);
    FindsFirst(lossy, ps, name);
  }

  /** A name without an equals sign has the empty value. */
  lemma BareNameReadsEmpty(lossy: bytes -> bytes, url: bytes, name: bytes)
    requires QUESTION !in url && lossy(name) == name && lossy([]) == []
    ensures QueryParam(lossy, url + [QUESTION] + Encoded(name), name) == Some([])
  {
    EncodedIsClean(name);
    DecodeInvertsEncode(name);
    SplitsAtFirst(url, QUESTION, Encoded(name));
    NothingToSplit(Encoded(name), AMPERSAND);
    NothingToSplit(Encoded(name), EQUALS);
  }
}
