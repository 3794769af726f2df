/**
 * `escape_html`: the five HTML-special characters of a form value are
 * replaced by their entities through chained `str.replace` calls, `&` first.
 * The chain is shown equal to a per-character map, which is what makes the
 * escaping free of double escapes and reversible.
 */
module Html {
  import opened Options
  import opened PyText

  /** The characters `escape_html` rewrites. */
  predicate IsSpecial(c: char) {
    c == '&' || c == '<' || c == '>' || c == '"' || c == '\''
  }

  /** The characters that can open markup or close an attribute value. */
  predicate IsMarkup(c: char) {
    c == '<' || c == '>' || c == '"' || c == '\''
  }

  /** The entity for one character; every other character stands for itself. */
  function EscapeChar(c: char): (r: string)
    ensures |r| >= 1
    ensures IsSpecial(c) <==> r != [c]
    ensures forall i :: 0 <= i < |r| ==> !IsMarkup(r[i])
  {
    match c
    case '&' => "&amp;"
    case '<' => "&lt;"
    case '>' => "&gt;"
    case '"' => "&quot;"
    case '\'' => "&#39;"
    case _ => [c]
  }

  /** The reference definition: the entities of the characters of `s`, concatenated. */
  function EscapeAll(s: string): (r: string)
  {
    if s == [] then [] else EscapeChar(s[0]) + EscapeAll(s[1..])
  }

  /** Line 18: the chained replacements, in the source's order. */
  function ReplaceChain(s: string): string {
    Replace(Replace(Replace(Replace(Replace(s, '&', "&amp;"), '<', "&lt;"), '>', "&gt;"), '"', "&quot;"), '\'', "&#39;")
  }

  /** `escape_html(text)`: a falsy value is returned as it is, any other is escaped. */
  function EscapeHtml(text: Option<string>): (r: Option<string>)
    ensures Falsy(text) ==> r == text
    ensures text.Some? ==> r == Some(EscapeAll(text.value))
  {
    if Falsy(text) then text
    else
      ReplaceChainIsEscapeAll(text.value);
      Some(ReplaceChain(text.value))
  }

  /** The chain distributes over concatenation, since each `Replace` does. */
  lemma ReplaceChainAppend(a: string, b: string)
    ensures ReplaceChain(a + b) == ReplaceChain(a) + ReplaceChain(b)
  {
    var a1, b1 := Replace(a, '&', "&amp;"), Replace(b, '&', "&amp;");
    ReplaceAppend(a, b, '&', "&amp;");
    var a2, b2 := Replace(a1, '<', "&lt;"), Replace(b1, '<', "&lt;");
    ReplaceAppend(a1, b1, '<', "&lt;");
    var a3, b3 := Replace(a2, '>', "&gt;"), Replace(b2, '>', "&gt;");
    ReplaceAppend(a2, b2, '>', "&gt;");
    var a4, b4 := Replace(a3, '"', "&quot;"), Replace(b3, '"', "&quot;");
    ReplaceAppend(a3, b3, '"', "&quot;");
    ReplaceAppend(a4, b4, '\'', "&#39;");
  }

  /**
   * On one character the chain yields exactly that character's entity: the
   * entities written by an earlier step hold none of the characters a later
   * step replaces, because `&` is replaced first.
   */
  lemma ReplaceChainChar(x: char)
    ensures ReplaceChain([x]) == EscapeChar(x)
  {
    ReplaceSingle(x, '&', "&amp;");
    var s1 := Replace([x], '&', "&amp;");
    if x == '&' {
      assert '<' !in s1 && '>' !in s1 && '"' !in s1 && '\'' !in s1;
    } else {
      ReplaceSingle(x, '<', "&lt;");
      var s2 := Replace(s1, '<', "&lt;");
      if x == '<' {
        assert '>' !in s2 && '"' !in s2 && '\'' !in s2;
      } else {
        ReplaceSingle(x, '>', "&gt;");
        var s3 := Replace(s2, '>', "&gt;");
        if x == '>' {
          assert '"' !in s3 && '\'' !in s3;
        } else {
          ReplaceSingle(x, '"', "&quot;");
          var s4 := Replace(s3, '"', "&quot;");
          if x == '"' {
            assert '\'' !in s4;
          } else {
            ReplaceSingle(x, '\'', "&#39;");
          }
        }
      }
    }
  }

  /** The chained replacements equal the per-character map. */
  lemma {:induction false} ReplaceChainIsEscapeAll(s: string)
    ensures ReplaceChain(s) == EscapeAll(s)
  {
    if s != [] {
      assert s == [s[0]] + s[1..];
      ReplaceChainAppend([s[0]], s[1..]);
      ReplaceChainChar(s[0]);
      ReplaceChainIsEscapeAll(s[1..]);
    }
  }

  /**
   * The escaped text holds no `<`, `>`, `"` or `'`, is at least as long as the
   * input, and is empty exactly when the input is.
   */
  lemma {:induction false} EscapeAllSafe(s: string)
    ensures forall i :: 0 <= i < |EscapeAll(s)| ==> !IsMarkup(EscapeAll(s)[i])
    ensures |EscapeAll(s)| >= |s|
    ensures EscapeAll(s) == [] <==> s == []
  {
    if s != [] {
      EscapeAllSafe(s[1..]);
      var h, t := EscapeChar(s[0]), EscapeAll(s[1..]);
      assert EscapeAll(s) == h + t;
      forall i | 0 <= i < |h + t| ensures !IsMarkup((h + t)[i]) {
        if i >= |h| {
          assert (h + t)[i] == t[i - |h|];
        }
      }
    }
  }

  /** Escaping leaves a string unchanged exactly when it has no special character. */
  lemma {:induction false} EscapeAllIdentity(s: string)
    ensures EscapeAll(s) == s <==> forall i :: 0 <= i < |s| ==> !IsSpecial(s[i])
  {
    if s != [] {
      EscapeAllIdentity(s[1..]);
      EscapeAllSafe(s[1..]);
      var h, t := EscapeChar(s[0]), EscapeAll(s[1..]);
      assert s == [s[0]] + s[1..];
      if IsSpecial(s[0]) {
        // the entity is longer than one character, so the result is longer than s
        assert |h| > 1;
        assert |h + t| > |s|;
      } else {
        assert h == [s[0]];
        if forall i :: 0 <= i < |s[1..]| ==> !IsSpecial(s[1..][i]) {
          assert t == s[1..];
        } else {
          var i :| 0 <= i < |s[1..]| && IsSpecial(s[1..][i]);
          assert IsSpecial(s[i + 1]);
          assert ([s[0]] + t)[1..] == t;
          assert ([s[0]] + s[1..])[1..] == s[1..];
        }
      }
    }
  }

  /**
   * The inverse of the escaping: each of the five entities is read back as its
   * character, every other character as itself.
   */
  function Unescape(s: string): (r: string)
    ensures |r| <= |s|
  {
    if s == [] then []
    else if s[0] == '&' && |s| >= 5 && s[..5] == "&amp;" then "&" + Unescape(s[5..])
    else if s[0] == '&' && |s| >= 4 && s[..4] == "&lt;" then "<" + Unescape(s[4..])
    else if s[0] == '&' && |s| >= 4 && s[..4] == "&gt;" then ">" + Unescape(s[4..])
    else if s[0] == '&' && |s| >= 6 && s[..6] == "&quot;" then "\"" + Unescape(s[6..])
    else if s[0] == '&' && |s| >= 5 && s[..5] == "&#39;" then "'" + Unescape(s[5..])
    else [s[0]] + Unescape(s[1..])
  }

  /** The entity of a character is read back as that character, whatever follows it. */
  lemma UnescapeChar(c: char, t: string)
    ensures Unescape(EscapeChar(c) + t) == [c] + Unescape(t)
  {
    var h := EscapeChar(c);
    var s := h + t;
    assert s[..|h|] == h;
    assert s[|h|..] == t;
    if IsSpecial(c) {
      assert s[0] == '&';
      assert s[1] == h[1] && s[2] == h[2];
      assert s[..|h|] == h && s[|h|..] == t;
    } else {
      assert s[0] == c && s[1..] == t;
    }
  }

  /** No double escaping: unescaping the escaped text gives back the input. */
  lemma {:induction false} UnescapeEscape(s: string)
    ensures Unescape(EscapeAll(s)) == s
  {
    if s != [] {
      UnescapeChar(s[0], EscapeAll(s[1..]));
      UnescapeEscape(s[1..]);
      assert s == [s[0]] + s[1..];
    }
  }

  /** Different inputs escape differently, so no two values render the same. */
  lemma EscapeAllInjective(s: string, t: string)
    requires EscapeAll(s) == EscapeAll(t)
    ensures s == t
  {
    UnescapeEscape(s);
    UnescapeEscape(t);
  }

  /** `escape_html` maps a falsy value to a falsy one and any other to a non-empty string. */
  lemma EscapeHtmlFalsy(text: Option<string>)
    ensures Falsy(EscapeHtml(text)) <==> Falsy(text)
  {
    if text.Some? {
      EscapeAllSafe(text.value);
    }
  }
}
