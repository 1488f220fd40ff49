/** Markup escaping by successive whole-string replaces, and the SVG card
    metadata that rests on it. */
module Escaping {

  /** `str::replace` of one character. */
  function ReplaceChar(s: string, c: char, to: string): string
  {
    if s == [] then [] else (if s[0] == c then to else [s[0]]) + ReplaceChar(s[1..], c, to)
  }

  function HtmlEscape(s: string): string
  {
    ReplaceChar(ReplaceChar(ReplaceChar(ReplaceChar(s, '&', "&amp;"), '<', "&lt;"), '>', "&gt;"), '"', "&quot;")
  }

  function XmlEscape(s: string): string { ReplaceChar(HtmlEscape(s), '\'', "&apos;") }

  /** The substitution meant for one character. */
  function HtmlEntity(c: char): string
  {
    if c == '&' then "&amp;"
    else if c == '<' then "&lt;"
    else if c == '>' then "&gt;"
    else if c == '"' then "&quot;"
    else [c]
  }

  function XmlEntity(c: char): string { if c == '\'' then "&apos;" else HtmlEntity(c) }

  function OnePass(s: string, entity: char -> string): string
  {
    if s == [] then [] else entity(s[0]) + OnePass(s[1..], entity)
  }

  /** The XML reader's side: entities back to characters, left to right. */
  function Unescape(s: string): string
  {
    if s == [] then []
    else if "&amp;" <= s then ['&'] + Unescape(s[5..])
    else if "&lt;" <= s then ['<'] + Unescape(s[4..])
    else if "&gt;" <= s then ['>'] + Unescape(s[4..])
    else if "&quot;" <= s then ['"'] + Unescape(s[6..])
    else if "&apos;" <= s then ['\''] + Unescape(s[6..])
    else [s[0]] + Unescape(s[1..])
  }

  lemma {:induction false} ReplaceConcat(a: string, b: string, c: char, to: string)
    ensures ReplaceChar(a + b, c, to) == ReplaceChar(a, c, to) + ReplaceChar(b, c, to)
  {
    if a == [] {
      assert a + b == b;
    } else {
      assert (a + b)[1..] == a[1..] + b;
      ReplaceConcat(a[1..], b, c, to);
    }
  }

  lemma {:induction false} ReplaceAbsent(s: string, c: char, to: string)
    requires c !in s
    ensures ReplaceChar(s, c, to) == s
  {
    if s != [] {
      ReplaceAbsent(s[1..], c, to);
      assert s == [s[0]] + s[1..];
    }
  }

  lemma ReplaceOne(x: char, c: char, to: string)
    ensures ReplaceChar([x], c, to) == if x == c then to else [x]
  {
  }

  lemma ReplaceLiteral(s: string, c: char, to: string, d: char, to': string)
    requires c !in s && d !in s
    ensures ReplaceChar(ReplaceChar(s, c, to), d, to') == s
  {
  }

  lemma AmpersandFirst(s: string, r: string)
    requires ReplaceChar(s, '&', "&amp;") == r && '<' !in r && '>' !in r && '"' !in r
    ensures HtmlEscape(s) == r
  {
    ReplaceAbsent(r, '<', "&lt;");
    ReplaceLiteral(r, '>', "&gt;", '"', "&quot;");
  }

  lemma EscapeAmpersand()
    ensures HtmlEscape("&") == "&amp;"
  {
    ReplaceOne('&', '&', "&amp;");
    AmpersandFirst("&", "&amp;");
  }

  lemma EscapeLess()
    ensures HtmlEscape("<") == "&lt;"
  {
    ReplaceOne('<', '&', "&amp;");
    ReplaceOne('<', '<', "&lt;");
    ReplaceLiteral("&lt;", '>', "&gt;", '"', "&quot;");
  }

  lemma EscapeGreater()
    ensures HtmlEscape(">") == "&gt;"
  {
    ReplaceLiteral(">", '&', "&amp;", '<', "&lt;");
    ReplaceOne('>', '>', "&gt;");
    ReplaceAbsent("&gt;", '"', "&quot;");
  }

  lemma EscapePlain(x: char)
    requires x != '&' && x != '<' && x != '>'
    ensures HtmlEscape([x]) == if x == '"' then "&quot;" else [x]
  {
    ReplaceLiteral([x], '&', "&amp;", '<', "&lt;");
    ReplaceOne(x, '>', "&gt;");
    ReplaceOne(x, '"', "&quot;");
  }

  /** Later replaces leave the entities of earlier ones alone, so one character escapes to its own entity. */
  lemma EscapeOne(x: char)
    ensures HtmlEscape([x]) == HtmlEntity(x) && XmlEscape([x]) == XmlEntity(x)
  {
    if x == '&' { EscapeAmpersand(); }
    else if x == '<' { EscapeLess(); }
    else if x == '>' { EscapeGreater(); }
    else { EscapePlain(x); }
    ApostropheLast(x);
  }

  lemma ApostropheLast(x: char)
    ensures ReplaceChar(HtmlEntity(x), '\'', "&apos;") == XmlEntity(x)
  {
    if x == '\'' { ReplaceOne(x, '\'', "&apos;"); } else { ReplaceAbsent(HtmlEntity(x), '\'', "&apos;"); }
  }

  lemma EscapeConcat(a: string, b: string)
    ensures HtmlEscape(a + b) == HtmlEscape(a) + HtmlEscape(b)
    ensures XmlEscape(a + b) == XmlEscape(a) + XmlEscape(b)
  {
    ReplaceConcat(a, b, '&', "&amp;");
    var a1, b1 := ReplaceChar(a, '&', "&amp;"), ReplaceChar(b, '&', "&amp;");
    ReplaceConcat(a1, b1, '<', "&lt;");
    var a2, b2 := ReplaceChar(a1, '<', "&lt;"), ReplaceChar(b1, '<', "&lt;");
    ReplaceConcat(a2, b2, '>', "&gt;");
    var a3, b3 := ReplaceChar(a2, '>', "&gt;"), ReplaceChar(b2, '>', "&gt;");
    ReplaceConcat(a3, b3, '"', "&quot;");
    ReplaceConcat(HtmlEscape(a), HtmlEscape(b), '\'', "&apos;");
  }

  /** The successive replaces are one pass over the characters. */
  lemma {:induction false} SequentialIsOnePass(s: string)
    ensures HtmlEscape(s) == OnePass(s, HtmlEntity) && XmlEscape(s) == OnePass(s, XmlEntity)
  {
    if s != [] {
      SequentialIsOnePass(s[1..]);
      EscapeOne(s[0]);
      EscapeConcat([s[0]], s[1..]);
      assert s == [s[0]] + s[1..];
    }
  }

  lemma UnescapeAmpersand(rest: string)
    ensures Unescape("&amp;" + rest) == ['&'] + Unescape(rest)
  {
    var s := "&amp;" + rest;
    assert s[..5] == "&amp;" && s[5..] == rest;
  }

  lemma UnescapeLess(rest: string)
    ensures Unescape("&lt;" + rest) == ['<'] + Unescape(rest)
  {
    var s := "&lt;" + rest;
    assert s[..4] == "&lt;" && s[4..] == rest && s[1] == 'l';
  }

  lemma UnescapeGreater(rest: string)
    ensures Unescape("&gt;" + rest) == ['>'] + Unescape(rest)
  {
    var s := "&gt;" + rest;
    assert s[..4] == "&gt;" && s[4..] == rest && s[1] == 'g';
  }

  lemma UnescapeQuote(rest: string)
    ensures Unescape("&quot;" + rest) == ['"'] + Unescape(rest)
  {
    var s := "&quot;" + rest;
    assert s[..6] == "&quot;" && s[6..] == rest && s[1] == 'q';
  }

  lemma UnescapeApostrophe(rest: string)
    ensures Unescape("&apos;" + rest) == ['\''] + Unescape(rest)
  {
    var s := "&apos;" + rest;
    assert s[..6] == "&apos;" && s[6..] == rest && s[1] == 'a' && s[2] == 'p';
  }

  lemma UnescapeEntity(c: char, rest: string)
    ensures Unescape(XmlEntity(c) + rest) == [c] + Unescape(rest)
  {
    if c == '&' { UnescapeAmpersand(rest); }
    else if c == '<' { UnescapeLess(rest); }
    else if c == '>' { UnescapeGreater(rest); }
    else if c == '"' { UnescapeQuote(rest); }
    else if c == '\'' { UnescapeApostrophe(rest); }
    else { assert ([c] + rest)[0] == c && ([c] + rest)[1..] == rest; }
  }

  /** The XML reader recovers the text, so escaping is injective. */
  lemma {:induction false} UnescapeInvertsEscape(s: string)
    ensures Unescape(XmlEscape(s)) == s
  {
    SequentialIsOnePass(s);
    if s != [] {
      SequentialIsOnePass(s[1..]);
      UnescapeInvertsEscape(s[1..]);
      UnescapeEntity(s[0], OnePass(s[1..], XmlEntity));
      assert s == [s[0]] + s[1..];
    }
  }

  predicate StartsEntity(s: string)
  {
    "&amp;" <= s || "&lt;" <= s || "&gt;" <= s || "&quot;" <= s || "&apos;" <= s
  }

  predicate Raw(c: char) { c == '<' || c == '>' || c == '"' || c == '\'' }

  lemma EntityIsClean(c: char)
    ensures forall x :: x in XmlEntity(c) ==> !Raw(x)
    ensures forall i :: 0 < i < |XmlEntity(c)| ==> XmlEntity(c)[i] != '&'
    ensures XmlEntity(c) != [] && (XmlEntity(c)[0] == '&' ==> StartsEntity(XmlEntity(c)))
  {
  }

  lemma EntityExtends(s: string, rest: string)
    requires StartsEntity(s)
    ensures StartsEntity(s + rest)
  {
  }

  ghost predicate AmpersandsAreEntities(s: string)
  {
    forall i :: 0 <= i < |s| && s[i] == '&' ==> StartsEntity(s[i..])
  }

  lemma HeadThenClean(head: string, rest: string)
    requires AmpersandsAreEntities(rest) && head != [] && (head[0] == '&' ==> StartsEntity(head))
    requires forall i :: 0 < i < |head| ==> head[i] != '&'
    ensures AmpersandsAreEntities(head + rest)
  {
    var all := head + rest;
    forall i | 0 <= i < |all| && all[i] == '&' ensures StartsEntity(all[i..]) {
      if i < |head| {
        assert head[i] == '&' && i == 0;
        EntityExtends(head, rest);
        assert all[0..] == all;
      } else {
        assert all[i..] == rest[i - |head|..] && rest[i - |head|] == '&';
      }
    }
  }

  /** No raw markup is left: no angle bracket or quote, and an ampersand only as the start of an entity. */
  lemma {:induction false} NoRawMarkup(s: string)
    ensures forall c :: c in XmlEscape(s) ==> !Raw(c)
    ensures AmpersandsAreEntities(XmlEscape(s))
  {
    SequentialIsOnePass(s);
    if s != [] {
      SequentialIsOnePass(s[1..]);
      NoRawMarkup(s[1..]);
      EntityIsClean(s[0]);
      HeadThenClean(XmlEntity(s[0]), XmlEscape(s[1..]));
    }
  }

  /** Both escapers are injective. */
  lemma EscapersAreInjective(a: string, b: string)
    ensures HtmlEscape(a) == HtmlEscape(b) ==> a == b
    ensures XmlEscape(a) == XmlEscape(b) ==> a == b
  {
    UnescapeInvertsEscape(a);
    UnescapeInvertsEscape(b);
  }

  lemma {:induction false} ReplaceKeepsOthers(s: string, c: char, to: string)
    ensures forall x :: x in s && x != c ==> x in ReplaceChar(s, c, to)
  {
    if s != [] { ReplaceKeepsOthers(s[1..], c, to); }
  }

  lemma HtmlEntityIsClean(c: char)
    ensures HtmlEntity(c) != [] && (HtmlEntity(c)[0] == '&' ==> StartsEntity(HtmlEntity(c)))
    ensures forall i :: 0 < i < |HtmlEntity(c)| ==> HtmlEntity(c)[i] != '&'
  {
  }

  /** The HTML escaper leaves no raw markup either, apart from the apostrophe it does not treat. */
  lemma {:induction false} HtmlLeavesOnlyApostrophes(s: string)
    ensures forall c :: c in HtmlEscape(s) && Raw(c) ==> c == '\''
    ensures AmpersandsAreEntities(HtmlEscape(s))
  {
    NoRawMarkup(s);
    ReplaceKeepsOthers(HtmlEscape(s), '\'', "&apos;");
    SequentialIsOnePass(s);
    if s != [] {
      SequentialIsOnePass(s[1..]);
      HtmlLeavesOnlyApostrophes(s[1..]);
      HtmlEntityIsClean(s[0]);
      HeadThenClean(HtmlEntity(s[0]), HtmlEscape(s[1..]));
    }
  }

  // ------------------------------------------------------------------
  // The card metadata element
  // ------------------------------------------------------------------

  function Attribute(name: string, value: string): string { name + "\"" + value + "\"" }

  function StartTag(profile: string, hash: string): string
  {
    Attribute("<metadata id=", "cvm-card-json")
    + (Attribute(" data-content-type=", "application/json")
    + (Attribute(" data-profile=", XmlEscape(profile))
    + Attribute(" data-sha256=", XmlEscape(hash))))
  }

  function SvgCardMetadata(sha256: string -> string, json: string, profile: string): string
  {
    StartTag(profile, sha256(json)) + ">" + XmlEscape(json) + "</metadata>"
  }

  function UpTo(s: string, c: char): string
  {
    if s == [] || s[0] == c then [] else [s[0]] + UpTo(s[1..], c)
  }

  function After(s: string, c: char): string
  {
    if s == [] then [] else if s[0] == c then s[1..] else After(s[1..], c)
  }

  lemma {:induction false} CutAtFirst(a: string, c: char, b: string)
    requires c !in a
    ensures UpTo(a + [c] + b, c) == a && After(a + [c] + b, c) == b
  {
    var s := a + [c] + b;
    if a == [] {
      assert s[1..] == b;
    } else {
      assert s[1..] == a[1..] + [c] + b;
      CutAtFirst(a[1..], c, b);
      assert a == [a[0]] + a[1..];
    }
  }

  /** The text of the element: between the end of its start tag and the next tag. */
  function ElementText(doc: string): string { Unescape(UpTo(After(doc, '>'), '<')) }

  function AfterAttribute(doc: string): string { After(After(doc, '"'), '"') }

  /** The value of the n-th attribute of the first tag, counting from 0. */
  function AttributeValue(doc: string, n: nat): string
    decreases n
  {
    if n == 0 then Unescape(UpTo(After(doc, '"'), '"')) else AttributeValue(AfterAttribute(doc), n - 1)
  }

  lemma ReadAttribute(name: string, value: string, rest: string)
    requires '"' !in name && '"' !in value
    ensures AfterAttribute(Attribute(name, value) + rest) == rest
    ensures AttributeValue(Attribute(name, value) + rest, 0) == Unescape(value)
  {
    assert Attribute(name, value) + rest == name + ['"'] + (value + ['"'] + rest);
    CutAtFirst(name, '"', value + ['"'] + rest);
    CutAtFirst(value, '"', rest);
  }

  lemma SkipAttribute(name: string, value: string, rest: string, n: nat)
    requires '"' !in name && '"' !in value
    ensures AttributeValue(Attribute(name, value) + rest, n + 1) == AttributeValue(rest, n)
  {
    ReadAttribute(name, value, rest);
  }

  /** The names and fixed values of the tag contain neither quotes nor angle brackets that would end it. */
  lemma FixedParts()
    ensures '"' !in "<metadata id=" && '"' !in "cvm-card-json" && '"' !in " data-content-type="
    ensures '"' !in "application/json" && '"' !in " data-profile=" && '"' !in " data-sha256="
  {
  }

  lemma TagStaysOpen(profile: string, hash: string)
    ensures '>' !in StartTag(profile, hash)
  {
    NoRawMarkup(profile);
    NoRawMarkup(hash);
    assert '>' !in Attribute("<metadata id=", "cvm-card-json");
    assert '>' !in Attribute(" data-content-type=", "application/json");
    assert '>' !in Attribute(" data-profile=", XmlEscape(profile));
    assert '>' !in Attribute(" data-sha256=", XmlEscape(hash));
  }

  lemma TextOfMetadata(sha256: string -> string, json: string, profile: string)
    ensures ElementText(SvgCardMetadata(sha256, json, profile)) == json
  {
    var tag, j, close := StartTag(profile, sha256(json)), XmlEscape(json), "</metadata>";
    TagStaysOpen(profile, sha256(json));
    NoRawMarkup(json);
    assert SvgCardMetadata(sha256, json, profile) == tag + ['>'] + (j + close);
    CutAtFirst(tag, '>', j + close);
    assert j + close == j + ['<'] + close[1..];
    CutAtFirst(j, '<', close[1..]);
    UnescapeInvertsEscape(json);
  }

  lemma AttributesOfMetadata(profile: string, hash: string, rest: string)
    ensures AttributeValue(StartTag(profile, hash) + rest, 2) == profile
    ensures AttributeValue(StartTag(profile, hash) + rest, 3) == hash
  {
    var p, h := XmlEscape(profile), XmlEscape(hash);
    NoRawMarkup(profile);
    NoRawMarkup(hash);
    FixedParts();
    var d3 := Attribute(" data-sha256=", h) + rest;
    var d2 := Attribute(" data-profile=", p) + d3;
    var d1 := Attribute(" data-content-type=", "application/json") + d2;
    assert StartTag(profile, hash) + rest == Attribute("<metadata id=", "cvm-card-json") + d1;
    SkipAttribute("<metadata id=", "cvm-card-json", d1, 1);
    SkipAttribute("<metadata id=", "cvm-card-json", d1, 2);
    SkipAttribute(" data-content-type=", "application/json", d2, 0);
    SkipAttribute(" data-content-type=", "application/json", d2, 1);
    SkipAttribute(" data-profile=", p, d3, 0);
    ReadAttribute(" data-profile=", p, d3);
    ReadAttribute(" data-sha256=", h, rest);
    UnescapeInvertsEscape(profile);
    UnescapeInvertsEscape(hash);
  }

  /** A reader of the card gets back the exact JSON, and beside it the hash of that JSON. */
  lemma MetadataRoundTrip(sha256: string -> string, json: string, profile: string)
    ensures var doc := SvgCardMetadata(sha256, json, profile);
            ElementText(doc) == json && AttributeValue(doc, 3) == sha256(json) && AttributeValue(doc, 2) == profile
  {
    TextOfMetadata(sha256, json, profile);
    var rest := ">" + XmlEscape(json) + "</metadata>";
    AttributesOfMetadata(profile, sha256(json), rest);
    assert SvgCardMetadata(sha256, json, profile) == StartTag(profile, sha256(json)) + rest;
  }
}
