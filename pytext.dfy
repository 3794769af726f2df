/**
 * The Python text built-ins the quote handler relies on: truthiness of an
 * optional form field, `str.replace` with a one-character pattern, and the
 * two regular expressions of the tax-id check (`re.sub(r'[^\d]', '', s)` and
 * `re.match(r'^(\d{11}|\d{14})$', s)`).
 */
module PyText {
  import opened Options

  /** Python's `not x` for a form value: `None` and the empty string are falsy. */
  predicate Falsy(x: Option<string>) {
    x.None? || x.value == []
  }

  /** Python's `x or fallback` for an optional string. */
  function OrElse(x: Option<string>, fallback: string): (r: string)
    ensures fallback != [] ==> r != []
  {
    if Falsy(x) then fallback else x.value
  }

  /**
   * `s.replace(pat, rep)` for a one-character `pat`: every occurrence of `pat`,
   * left to right, is replaced by `rep`; nothing else changes.
   */
  function Replace(s: string, pat: char, rep: string): (r: string)
    ensures pat !in s ==> r == s
    ensures |rep| >= 1 ==> |r| >= |s|
  {
    if s == [] then []
    else (if s[0] == pat then rep else [s[0]]) + Replace(s[1..], pat, rep)
  }

  /** Replacing in a concatenation is concatenating the replacements. */
  lemma {:induction false} ReplaceAppend(a: string, b: string, pat: char, rep: string)
    ensures Replace(a + b, pat, rep) == Replace(a, pat, rep) + Replace(b, pat, rep)
  {
    if a == [] {
      assert a + b == b;
    } else {
      assert (a + b)[1..] == a[1..] + b;
      ReplaceAppend(a[1..], b, pat, rep);
    }
  }

  /** A one-character string becomes `rep` if it is `pat`, and stays itself otherwise. */
  lemma ReplaceSingle(x: char, pat: char, rep: string)
    ensures Replace([x], pat, rep) == if x == pat then rep else [x]
  {
    assert [x][1..] == [];
  }

  /**
   * With a one-character replacement the string keeps its length and changes
   * position by position: `pat` becomes `rep[0]`, every other character stays.
   */
  lemma {:induction false} ReplaceByCharAt(s: string, pat: char, rep: string, i: nat)
    requires |rep| == 1 && i < |s|
    ensures |Replace(s, pat, rep)| == |s|
    ensures Replace(s, pat, rep)[i] == if s[i] == pat then rep[0] else s[i]
  {
    if i == 0 {
      if |s| > 1 {
        ReplaceByCharAt(s[1..], pat, rep, 0);
      }
    } else {
      ReplaceByCharAt(s[1..], pat, rep, i - 1);
    }
  }

  /** Python's `\d`, restricted to the ASCII digits `0`-`9`. */
  predicate IsDigit(c: char) {
    '0' <= c <= '9'
  }

  /** `re.sub(r'[^\d]', '', s)`: the digits of `s`, in order. */
  function StripNonDigits(s: string): (r: string)
    ensures forall i :: 0 <= i < |r| ==> IsDigit(r[i])
    ensures |r| <= |s|
  {
    if s == [] then []
    else (if IsDigit(s[0]) then [s[0]] else []) + StripNonDigits(s[1..])
  }

  /** Stripping a concatenation is concatenating the stripped parts. */
  lemma {:induction false} StripAppend(a: string, b: string)
    ensures StripNonDigits(a + b) == StripNonDigits(a) + StripNonDigits(b)
  {
    if a == [] {
      assert a + b == b;
    } else {
      assert (a + b)[1..] == a[1..] + b;
      StripAppend(a[1..], b);
    }
  }

  /** A string of digits strips to itself. */
  lemma {:induction false} StripAllDigits(s: string)
    requires forall i :: 0 <= i < |s| ==> IsDigit(s[i])
    ensures StripNonDigits(s) == s
  {
    if s != [] {
      StripAllDigits(s[1..]);
    }
  }

  /** Stripping only removes characters: a string without digits strips to nothing. */
  lemma {:induction false} StripNoDigits(s: string)
    requires forall i :: 0 <= i < |s| ==> !IsDigit(s[i])
    ensures StripNonDigits(s) == []
  {
    if s != [] {
      StripNoDigits(s[1..]);
    }
  }

  /**
   * `re.match(r'^(\d{11}|\d{14})$', t)` on a string of digits, the only kind
   * the handler passes it: exactly 11 or exactly 14 digits. Python's `$` would
   * also accept one trailing newline, which a string of digits never has.
   */
  predicate MatchesTaxIdPattern(t: string) {
    (|t| == 11 || |t| == 14) && forall i :: 0 <= i < |t| ==> IsDigit(t[i])
  }
}
