/**
 * `escapeHtml`: makes user text safe to put inside a message sent with
 * HTML formatting.
 */
module Html {
  import opened Strings

  /** `s.replace(/c/g, rep)`: every occurrence of the character `c` becomes `rep`. */
  function ReplaceAll(s: string, c: char, rep: string): string
  {
    if s == [] then [] else (if s[0] == c then rep else [s[0]]) + ReplaceAll(s[1..], c, rep)
  }

  /** `escapeHtml` as the bot writes it: five global replacements, `&` first. */
  function EscapeHtml(s: string): string
  {
    ReplaceAll(ReplaceAll(ReplaceAll(ReplaceAll(ReplaceAll(s,
      '&', "&amp;"), '<', "&lt;"), '>', "&gt;"), '"', "&quot;"), '\'', "&#039;")
  }

  /** The entity each character stands for after escaping; other characters stay as they are. */
  function EscapeChar(c: char): string
  {
    match c
    case '&' => "&amp;"
    case '<' => "&lt;"
    case '>' => "&gt;"
    case '"' => "&quot;"
    case '\'' => "&#039;"
    case _ => [c]
  }

  /** Reference definition: each character of the input, in order, replaced by its escape. */
  function EscapeEachChar(s: string): string
  {
    if s == [] then [] else EscapeChar(s[0]) + EscapeEachChar(s[1..])
  }

  /** A character that would be read as markup. */
  predicate IsMarkupChar(c: char)
  {
    c == '<' || c == '>' || c == '"' || c == '\''
  }

  predicate NoMarkup(s: string)
  {
    forall k | 0 <= k < |s| :: !IsMarkupChar(s[k])
  }

  lemma {:induction false} ReplaceAllConcat(a: string, b: string, c: char, rep: string)
    ensures ReplaceAll(a + b, c, rep) == ReplaceAll(a, c, rep) + ReplaceAll(b, c, rep)
    decreases |a|
  {
    if a != [] {
      assert (a + b)[1..] == a[1..] + b;
      ReplaceAllConcat(a[1..], b, c, rep);
    } else {
      assert a + b == b;
    }
  }

  lemma {:induction false} ReplaceAllAbsent(s: string, c: char, rep: string)
    requires c !in s
    ensures ReplaceAll(s, c, rep) == s
    decreases |s|
  {
    if s != [] {
      assert c !in s[1..];
      ReplaceAllAbsent(s[1..], c, rep);
    }
  }

  /** The escape of a concatenation is the concatenation of the escapes. */
  lemma EscapeHtmlConcat(a: string, b: string)
    ensures EscapeHtml(a + b) == EscapeHtml(a) + EscapeHtml(b)
  {
    var a1, b1 := ReplaceAll(a, '&', "&amp;"), ReplaceAll(b, '&', "&amp;");
    ReplaceAllConcat(a, b, '&', "&amp;");
    var a2, b2 := ReplaceAll(a1, '<', "&lt;"), ReplaceAll(b1, '<', "&lt;");
    ReplaceAllConcat(a1, b1, '<', "&lt;");
    var a3, b3 := ReplaceAll(a2, '>', "&gt;"), ReplaceAll(b2, '>', "&gt;");
    ReplaceAllConcat(a2, b2, '>', "&gt;");
    var a4, b4 := ReplaceAll(a3, '"', "&quot;"), ReplaceAll(b3, '"', "&quot;");
    ReplaceAllConcat(a3, b3, '"', "&quot;");
    ReplaceAllConcat(a4, b4, '\'', "&#039;");
  }

  lemma ReplaceAllSingle(x: char, c: char, rep: string)
    ensures ReplaceAll([x], c, rep) == if x == c then rep else [x]
  {
    assert [x][1..] == [];
  }

  /** The four replacements after the one of `&`. */
  function AfterAmp(s: string): string
  {
    ReplaceAll(ReplaceAll(ReplaceAll(ReplaceAll(s, '<', "&lt;"), '>', "&gt;"), '"', "&quot;"), '\'', "&#039;")
  }

  /** Text free of the four characters passes the later replacements untouched. */
  lemma AfterAmpAbsent(s: string)
    requires '<' !in s && '>' !in s && '"' !in s && '\'' !in s
    ensures AfterAmp(s) == s
  {
    ReplaceAllAbsent(s, '<', "&lt;");
    ReplaceAllAbsent(s, '>', "&gt;");
    ReplaceAllAbsent(s, '"', "&quot;");
    ReplaceAllAbsent(s, '\'', "&#039;");
  }

  /** The entities of `<`, `>` and `"` contain none of the characters replaced after them. */
  lemma EntitiesPlain()
    ensures '>' !in "&lt;" && '"' !in "&lt;" && '\'' !in "&lt;"
    ensures '"' !in "&gt;" && '\'' !in "&gt;"
    ensures '\'' !in "&quot;"
  {
  }

  lemma AfterAmpChar(c: char)
    requires c != '&'
    ensures AfterAmp([c]) == EscapeChar(c)
  {
    EntitiesPlain();
    ReplaceAllSingle(c, '<', "&lt;");
    if c == '<' {
      ReplaceAllAbsent("&lt;", '>', "&gt;");
      ReplaceAllAbsent("&lt;", '"', "&quot;");
      ReplaceAllAbsent("&lt;", '\'', "&#039;");
    } else {
      ReplaceAllSingle(c, '>', "&gt;");
      if c == '>' {
        ReplaceAllAbsent("&gt;", '"', "&quot;");
        ReplaceAllAbsent("&gt;", '\'', "&#039;");
      } else {
        ReplaceAllSingle(c, '"', "&quot;");
        if c == '"' {
          ReplaceAllAbsent("&quot;", '\'', "&#039;");
        } else {
          ReplaceAllSingle(c, '\'', "&#039;");
        }
      }
    }
  }

  /**
   * On one character the chain of replacements gives exactly its entity:
   * since `&` is replaced first, the `&` that the later entities introduce
   * is never escaped again, and no entity contains a character that a
   * later replacement looks for.
   */
  lemma EscapeHtmlChar(c: char)
    ensures EscapeHtml([c]) == EscapeChar(c)
  {
    if c == '&' {
      EscapeHtmlAmp();
    } else {
      EscapeHtmlNotAmp(c);
      AfterAmpChar(c);
    }
  }

  lemma EscapeHtmlAmp()
    ensures EscapeHtml("&") == "&amp;"
  {
    EscapeHtmlThenAfterAmp("&");
    ReplaceAllSingle('&', '&', "&amp;");
    AmpEntityPlain();
    AfterAmpAbsent("&amp;");
  }

  lemma AmpEntityPlain()
    ensures '<' !in "&amp;" && '>' !in "&amp;" && '"' !in "&amp;" && '\'' !in "&amp;"
  {
  }

  lemma EscapeHtmlNotAmp(c: char)
    requires c != '&'
    ensures EscapeHtml([c]) == AfterAmp([c])
  {
    EscapeHtmlThenAfterAmp([c]);
    ReplaceAllSingle(c, '&', "&amp;");
  }

  lemma EscapeHtmlThenAfterAmp(s: string)
    ensures EscapeHtml(s) == AfterAmp(ReplaceAll(s, '&', "&amp;"))
  {
  }

  /** The chain of replacements escapes each input character, in order, to its own entity. */
  lemma {:induction false} EscapeHtmlIsPerChar(s: string)
    ensures EscapeHtml(s) == EscapeEachChar(s)
    decreases |s|
  {
    if s == [] {
    } else {
      assert s == [s[0]] + s[1..];
      EscapeHtmlConcat([s[0]], s[1..]);
      EscapeHtmlChar(s[0]);
      EscapeHtmlIsPerChar(s[1..]);
    }
  }

  lemma {:induction false} NoMarkupConcat(a: string, b: string)
    requires NoMarkup(a) && NoMarkup(b)
    ensures NoMarkup(a + b)
  {
    assert forall k | |a| <= k < |a + b| :: (a + b)[k] == b[k - |a|];
  }

  lemma {:induction false} EscapeEachCharNoMarkup(s: string)
    ensures NoMarkup(EscapeEachChar(s))
    decreases |s|
  {
    if s != [] {
      EscapeEachCharNoMarkup(s[1..]);
      NoMarkupConcat(EscapeChar(s[0]), EscapeEachChar(s[1..]));
    }
  }

  /** No escaped text contains a raw `<`, `>`, `"` or `'`. */
  lemma EscapeHtmlNoMarkup(s: string)
    ensures NoMarkup(EscapeHtml(s))
  {
    EscapeHtmlIsPerChar(s);
    EscapeEachCharNoMarkup(s);
  }

  /** HTML entity decoding of the five entities `escapeHtml` produces. */
  function Unescape(s: string): string
    decreases |s|
  {
    if s == [] then []
    else if StartsWith(s, "&amp;") then "&" + Unescape(s[5..])
    else if StartsWith(s, "&lt;") then "<" + Unescape(s[4..])
    else if StartsWith(s, "&gt;") then ">" + Unescape(s[4..])
    else if StartsWith(s, "&quot;") then "\"" + Unescape(s[6..])
    else if StartsWith(s, "&#039;") then "'" + Unescape(s[6..])
    else [s[0]] + Unescape(s[1..])
  }

  /** An escape that is not `&amp;` does not start with `&a`. */
  lemma NotAmp(s: string)
    requires |s| >= 2 && s[1] != 'a'
    ensures !StartsWith(s, "&amp;")
  {
  }

  lemma NotLt(s: string)
    requires |s| >= 2 && s[1] != 'l'
    ensures !StartsWith(s, "&lt;")
  {
  }

  lemma NotGt(s: string)
    requires |s| >= 2 && s[1] != 'g'
    ensures !StartsWith(s, "&gt;")
  {
  }

  lemma NotQuot(s: string)
    requires |s| >= 2 && s[1] != 'q'
    ensures !StartsWith(s, "&quot;")
  {
  }

  lemma UnescapeStep(c: char, t: string)
    ensures Unescape(EscapeChar(c) + t) == [c] + Unescape(t)
  {
    var e := EscapeChar(c);
    var s := e + t;
    if c == '&' {
      assert s[..5] == e && s[5..] == t;
    } else if c == '<' {
      assert s[..4] == e && s[4..] == t;
      NotAmp(s);
    } else if c == '>' {
      assert s[..4] == e && s[4..] == t;
      NotAmp(s); NotLt(s);
    } else if c == '"' {
      assert s[..6] == e && s[6..] == t;
      NotAmp(s); NotLt(s); NotGt(s);
    } else if c == '\'' {
      assert s[..6] == e && s[6..] == t;
      NotAmp(s); NotLt(s); NotGt(s); NotQuot(s);
    } else {
      assert e == [c] && s[0] == c && s[1..] == t;
      assert !StartsWith(s, "&amp;") && !StartsWith(s, "&lt;") && !StartsWith(s, "&gt;");
      assert !StartsWith(s, "&quot;") && !StartsWith(s, "&#039;");
    }
  }

  /** Decoding the entities recovers the original text. */
  lemma {:induction false} UnescapeEscapeHtml(s: string)
    ensures Unescape(EscapeHtml(s)) == s
    decreases |s|
  {
    EscapeHtmlIsPerChar(s);
    if s != [] {
      EscapeHtmlIsPerChar(s[1..]);
      UnescapeStep(s[0], EscapeEachChar(s[1..]));
      UnescapeEscapeHtml(s[1..]);
      assert s == [s[0]] + s[1..];
    }
  }
}
