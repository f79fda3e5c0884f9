/**
 Escaping in Maven metadata documents (crates/adapters/maven/src/metadata.rs, `xml_escape`), against the
 predefined entities of XML 1.0, section 4.6.
 */
module XmlEscape {

  /** `s.replace(c, entity)` */
  function Replace(s: string, c: char, entity: string): string {
    if s == "" then "" else (if s[0] == c then entity else [s[0]]) + Replace(s[1..], c, entity)
  }

  /** The five replacements, one after the other. */
  function Escape(s: string): string {
    Replace(Replace(Replace(Replace(Replace(s, '&', "&amp;"), '<', "&lt;"), '>', "&gt;"), '"', "&quot;"), '\'', "&apos;")
  }

  function EscapeChar(c: char): string {
    if c == '&' then "&amp;"
    else if c == '<' then "&lt;"
    else if c == '>' then "&gt;"
    else if c == '"' then "&quot;"
    else if c == '\'' then "&apos;"
    else [c]
  }

  /** One substitution for each character. */
  function EscapeEach(s: string): string {
    if s == "" then "" else EscapeChar(s[0]) + EscapeEach(s[1..])
  }

  /** Expanding the predefined entities from left to right. */
  function Unescape(s: string): string {
    if s == "" then ""
    else if "&amp;" <= s then "&" + Unescape(s[5..])
    else if "&lt;" <= s then "<" + Unescape(s[4..])
    else if "&gt;" <= s then ">" + Unescape(s[4..])
    else if "&quot;" <= s then "\"" + Unescape(s[6..])
    else if "&apos;" <= s then "'" + Unescape(s[6..])
    else [s[0]] + Unescape(s[1..])
  }

  // ---------------------------------------------------------------- five replacements are one

  lemma {:induction false} ReplaceConcat(a: string, b: string, c: char, entity: string)
    ensures Replace(a + b, c, entity) == Replace(a, c, entity) + Replace(b, c, entity)
  {
    if a == "" {
      assert a + b == b;
    } else {
      assert (a + b)[1..] == a[1..] + b;
      ReplaceConcat(a[1..], b, c, entity);
    }
  }

  lemma {:induction false} ReplaceAbsent(s: string, c: char, entity: string)
    requires c !in s
    ensures Replace(s, c, entity) == s
  {
    if s != "" {
      ReplaceAbsent(s[1..], c, entity);
    }
  }

  lemma ReplaceOne(x: char, c: char, entity: string)
    ensures Replace([x], c, entity) == if x == c then entity else [x]
  {
  }

  lemma EscapeConcat(a: string, b: string)
    ensures Escape(a + b) == Escape(a) + Escape(b)
  {
    hide Replace;
    var a1, b1 := Replace(a, '&', "&amp;"), Replace(b, '&', "&amp;");
    var a2, b2 := Replace(a1, '<', "&lt;"), Replace(b1, '<', "&lt;");
    var a3, b3 := Replace(a2, '>', "&gt;"), Replace(b2, '>', "&gt;");
    var a4, b4 := Replace(a3, '"', "&quot;"), Replace(b3, '"', "&quot;");
    ReplaceConcat(a, b, '&', "&amp;");
    ReplaceConcat(a1, b1, '<', "&lt;");
    ReplaceConcat(a2, b2, '>', "&gt;");
    ReplaceConcat(a3, b3, '"', "&quot;");
    ReplaceConcat(a4, b4, '\'', "&apos;");
  }

  /** No replacement finds anything in what an earlier one has put in, for the ampersand goes first. */
  lemma EscapeOne(c: char)
    ensures Escape([c]) == EscapeChar(c)
  {
    hide Replace;
    ReplaceOne(c, '&', "&amp;");
    ReplaceOne(c, '<', "&lt;");
    ReplaceOne(c, '>', "&gt;");
    ReplaceOne(c, '"', "&quot;");
    ReplaceOne(c, '\'', "&apos;");
    if c == '&' {
      ReplaceAbsent("&amp;", '<', "&lt;");
      ReplaceAbsent("&amp;", '>', "&gt;");
      ReplaceAbsent("&amp;", '"', "&quot;");
      ReplaceAbsent("&amp;", '\'', "&apos;");
    } else if c == '<' {
      ReplaceAbsent("&lt;", '>', "&gt;");
      ReplaceAbsent("&lt;", '"', "&quot;");
      ReplaceAbsent("&lt;", '\'', "&apos;");
    } else if c == '>' {
      ReplaceAbsent("&gt;", '"', "&quot;");
      ReplaceAbsent("&gt;", '\'', "&apos;");
    } else if c == '"' {
      ReplaceAbsent("&quot;", '\'', "&apos;");
    }
  }

  lemma {:induction false} EscapeIsPerCharacter(s: string)
    ensures Escape(s) == EscapeEach(s)
  {
    if s == "" {
      ReplaceAbsent("", '&', "&amp;");
    } else {
      hide Escape, EscapeChar;
      EscapeIsPerCharacter(s[1..]);
      EscapeOne(s[0]);
      EscapeConcat([s[0]], s[1..]);
      assert [s[0]] + s[1..] == s;
    }
  }

  /** The five characters and their entities; every other character stays. */
  lemma PredefinedEntities(c: char)
    ensures Escape("&") == "&amp;" && Escape("<") == "&lt;" && Escape(">") == "&gt;"
    ensures Escape("\"") == "&quot;" && Escape("'") == "&apos;"
    ensures c != '&' && c != '<' && c != '>' && c != '"' && c != '\'' ==> Escape([c]) == [c]
  {
    hide Escape;
    EscapeOne('&');
    EscapeOne('<');
    EscapeOne('>');
    EscapeOne('"');
    EscapeOne('\'');
    EscapeOne(c);
  }

  // ---------------------------------------------------------------- what comes out

  predicate Raw(c: char) { c == '<' || c == '>' || c == '"' || c == '\'' }

  /** Nothing that could open or close a tag or an attribute value is left. */
  lemma {:induction false} EscapedHasNoMarkup(s: string, i: nat)
    requires i < |Escape(s)|
    ensures !Raw(Escape(s)[i])
  {
    EscapeIsPerCharacter(s);
    hide Escape;
    EachHasNoMarkup(s, i);
  }

  lemma {:induction false} EachHasNoMarkup(s: string, i: nat)
    requires i < |EscapeEach(s)|
    ensures !Raw(EscapeEach(s)[i])
  {
    var n := |EscapeChar(s[0])|;
    if i >= n {
      EachHasNoMarkup(s[1..], i - n);
    }
  }

  lemma UnescapeChar(c: char, rest: string)
    ensures Unescape(EscapeChar(c) + rest) == [c] + Unescape(rest)
  {
    var s := EscapeChar(c) + rest;
    var n := |EscapeChar(c)|;
    assert s[n..] == rest;
    assert s[0] == EscapeChar(c)[0] && (n > 1 ==> s[1] == EscapeChar(c)[1]) && (n > 2 ==> s[2] == EscapeChar(c)[2]);
    if c == '&' {
      assert "&amp;" <= s;
    } else if c == '<' {
      assert "&lt;" <= s && !("&amp;" <= s);
    } else if c == '>' {
      assert "&gt;" <= s && !("&amp;" <= s) && !("&lt;" <= s);
    } else if c == '"' {
      assert "&quot;" <= s && !("&amp;" <= s) && !("&lt;" <= s) && !("&gt;" <= s);
    } else if c == '\'' {
      assert "&apos;" <= s && !("&amp;" <= s) && !("&lt;" <= s) && !("&gt;" <= s) && !("&quot;" <= s);
    }
  }

  lemma {:induction false} UnescapeEach(s: string)
    ensures Unescape(EscapeEach(s)) == s
  {
    if s != "" {
      hide Unescape, EscapeChar;
      UnescapeEach(s[1..]);
      UnescapeChar(s[0], EscapeEach(s[1..]));
    }
  }

  /** Expanding the entities gives back the original, for every string. */
  lemma UnescapeEscape(s: string)
    ensures Unescape(Escape(s)) == s
  {
    EscapeIsPerCharacter(s);
    UnescapeEach(s);
  }
}
