/**
 * Escaping text for insertion into the page: the five characters HTML
 * gives meaning to are replaced by entities, one global replacement per
 * character, ampersands first.
 */
module HtmlEscape {
  import opened Text

  /** `s.replace(/c/g, rep)` for a single character `c`. */
  function ReplaceAll(s: string, c: char, rep: string): (r: string)
    ensures |rep| >= 1 ==> |r| >= |s|
    ensures c !in rep ==> c !in r
  {
    if s == [] then [] else (if s[0] == c then rep else [s[0]]) + ReplaceAll(s[1..], c, rep)
  }

  /**
   * `escapeHtml`: the chain of replacements, in the order the page applies
   * them. Text only grows, and the last replacement leaves no `'`.
   */
  function EscapeHtml(unsafe: string): (safe: string)
    ensures |safe| >= |unsafe|
    ensures '\'' !in safe
  {
    var amp := ReplaceAll(unsafe, '&', "&amp;");
    var lt := ReplaceAll(amp, '<', "&lt;");
    var gt := ReplaceAll(lt, '>', "&gt;");
    var quot := ReplaceAll(gt, '"', "&quot;");
    ReplaceAll(quot, '\'', "&#039;")
  }

  /** The entity that stands for one character, or the character itself. */
  function EscapeChar(c: char): string {
    match c
    case '&' => "&amp;"
    case '<' => "&lt;"
    case '>' => "&gt;"
    case '"' => "&quot;"
    case '\'' => "&#039;"
    case _ => [c]
  }

  /** Escaping character by character: the reference the replacement chain is compared with. */
  function EscapeEach(s: string): string {
    if s == [] then [] else EscapeChar(s[0]) + EscapeEach(s[1..])
  }

  lemma {:induction false} ReplaceAllConcat(a: string, b: string, c: char, rep: string)
    ensures ReplaceAll(a + b, c, rep) == ReplaceAll(a, c, rep) + ReplaceAll(b, c, rep)
  {
    if a == [] {
      assert a + b == b;
    } else {
      assert (a + b)[0] == a[0] && (a + b)[1..] == a[1..] + b;
      ReplaceAllConcat(a[1..], b, c, rep);
    }
  }

  lemma {:induction false} ReplaceAllAbsent(s: string, c: char, rep: string)
    requires c !in s
    ensures ReplaceAll(s, c, rep) == s
  {
    if s != [] {
      ReplaceAllAbsent(s[1..], c, rep);
    }
  }

  lemma ReplaceAllOne(x: char, c: char, rep: string)
    ensures ReplaceAll([x], c, rep) == if x == c then rep else [x]
  {
    assert [x][1..] == [];
  }

  /** The replacements after the one that produced `e` leave it alone. */
  lemma Untouched(e: string, cs: set<char>)
    requires forall k :: 0 <= k < |e| ==> e[k] !in cs
    ensures '<' in cs ==> ReplaceAll(e, '<', "&lt;") == e
    ensures '>' in cs ==> ReplaceAll(e, '>', "&gt;") == e
    ensures '"' in cs ==> ReplaceAll(e, '"', "&quot;") == e
    ensures '\'' in cs ==> ReplaceAll(e, '\'', "&#039;") == e
  {
    if '<' in cs { ReplaceAllAbsent(e, '<', "&lt;"); }
    if '>' in cs { ReplaceAllAbsent(e, '>', "&gt;"); }
    if '"' in cs { ReplaceAllAbsent(e, '"', "&quot;"); }
    if '\'' in cs { ReplaceAllAbsent(e, '\'', "&#039;"); }
  }

  /** On one character the chain gives that character's entity. */
  lemma EscapeHtmlOne(x: char)
    ensures EscapeHtml([x]) == EscapeChar(x)
  {
    ReplaceAllOne(x, '&', "&amp;");
    ReplaceAllOne(x, '<', "&lt;");
    ReplaceAllOne(x, '>', "&gt;");
    ReplaceAllOne(x, '"', "&quot;");
    ReplaceAllOne(x, '\'', "&#039;");
    var markup := {'<', '>', '"', '\''};
    if x == '&' {
      Untouched("&amp;", markup);
    } else if x == '<' {
      Untouched("&lt;", markup);
    } else if x == '>' {
      Untouched("&gt;", markup);
    } else if x == '"' {
      Untouched("&quot;", markup);
    }
  }

  lemma {:induction false} EscapeHtmlConcat(a: string, b: string)
    ensures EscapeHtml(a + b) == EscapeHtml(a) + EscapeHtml(b)
  {
    ReplaceAllConcat(a, b, '&', "&amp;");
    var a1, b1 := ReplaceAll(a, '&', "&amp;"), ReplaceAll(b, '&', "&amp;");
    ReplaceAllConcat(a1, b1, '<', "&lt;");
    var a2, b2 := ReplaceAll(a1, '<', "&lt;"), ReplaceAll(b1, '<', "&lt;");
    ReplaceAllConcat(a2, b2, '>', "&gt;");
    var a3, b3 := ReplaceAll(a2, '>', "&gt;"), ReplaceAll(b2, '>', "&gt;");
    ReplaceAllConcat(a3, b3, '"', "&quot;");
    var a4, b4 := ReplaceAll(a3, '"', "&quot;"), ReplaceAll(b3, '"', "&quot;");
    ReplaceAllConcat(a4, b4, '\'', "&#039;");
  }

  /**
   * The replacement chain escapes each character on its own: no entity a
   * step inserts holds a character a later step replaces, and ampersands
   * go first so no entity is escaped twice.
   */
  lemma {:induction false} EscapeHtmlIsPerCharacter(s: string)
    ensures EscapeHtml(s) == EscapeEach(s)
  {
    if s != [] {
      assert s == [s[0]] + s[1..];
      EscapeHtmlConcat([s[0]], s[1..]);
      EscapeHtmlIsPerCharacter(s[1..]);
      EscapeHtmlOne(s[0]);
    }
  }

  /** No markup character survives escaping. */
  lemma {:induction false} EscapedHasNoMarkup(s: string)
    ensures forall k :: 0 <= k < |EscapeEach(s)| ==> EscapeEach(s)[k] !in {'<', '>', '"', '\''}
  {
    if s != [] {
      EscapedHasNoMarkup(s[1..]);
      var e := EscapeEach(s);
      assert e == EscapeChar(s[0]) + EscapeEach(s[1..]);
      forall k | 0 <= k < |e| ensures e[k] !in {'<', '>', '"', '\''} {
        if k >= |EscapeChar(s[0])| {
          assert e[k] == EscapeEach(s[1..])[k - |EscapeChar(s[0])|];
        }
      }
    }
  }

  /** Reads entities back as the characters they stand for. */
  function Unescape(t: string): string
    decreases |t|
  {
    if t == [] then []
    else if StartsWith(t, "&amp;") then "&" + Unescape(t[5..])
    else if StartsWith(t, "&lt;") then "<" + Unescape(t[4..])
    else if StartsWith(t, "&gt;") then ">" + Unescape(t[4..])
    else if StartsWith(t, "&quot;") then "\"" + Unescape(t[6..])
    else if StartsWith(t, "&#039;") then "'" + Unescape(t[6..])
    else [t[0]] + Unescape(t[1..])
  }

  /** An entity at the front reads back as its character. */
  lemma UnescapeEntity(c: char, rest: string)
    requires c in {'&', '<', '>', '"', '\''}
    ensures Unescape(EscapeChar(c) + rest) == [c] + Unescape(rest)
  {
    var e := EscapeChar(c);
    var t := e + rest;
    assert t[..|e|] == e && t[|e|..] == rest;
    assert t[0] == '&';
    if c == '&' {
      assert StartsWith(t, "&amp;");
    } else if c == '<' {
      assert t[1] == 'l' && StartsWith(t, "&lt;");
    } else if c == '>' {
      assert t[1] == 'g' && StartsWith(t, "&gt;");
    } else if c == '"' {
      assert t[1] == 'q' && StartsWith(t, "&quot;");
    } else {
      assert t[1] == '#' && StartsWith(t, "&#039;");
    }
  }

  lemma UnescapeStep(c: char, rest: string)
    ensures Unescape(EscapeChar(c) + rest) == [c] + Unescape(rest)
  {
    if c in {'&', '<', '>', '"', '\''} {
      UnescapeEntity(c, rest);
    } else {
      UnescapePlain(c, rest);
    }
  }

  /** A character that opens no entity reads back as itself. */
  lemma UnescapePlain(c: char, rest: string)
    requires c != '&'
    ensures Unescape([c] + rest) == [c] + Unescape(rest)
  {
    var t := [c] + rest;
    assert t[0] == c && t[1..] == rest;
    assert !StartsWith(t, "&amp;") && !StartsWith(t, "&lt;") && !StartsWith(t, "&gt;") by {
      assert forall p: string :: |p| > 0 && p[0] == '&' && StartsWith(t, p) ==> t[0] == '&';
    }
    assert !StartsWith(t, "&quot;") && !StartsWith(t, "&#039;") by {
      assert forall p: string :: |p| > 0 && p[0] == '&' && StartsWith(t, p) ==> t[0] == '&';
    }
  }

  /** Escaping loses nothing: the escaped text reads back as the original. */
  lemma {:induction false} UnescapeEscape(s: string)
    ensures Unescape(EscapeHtml(s)) == s
  {
    EscapeHtmlIsPerCharacter(s);
    UnescapeEscapeEach(s);
  }

  lemma {:induction false} UnescapeEscapeEach(s: string)
    ensures Unescape(EscapeEach(s)) == s
  {
    if s != [] {
      UnescapeStep(s[0], EscapeEach(s[1..]));
      UnescapeEscapeEach(s[1..]);
      assert s == [s[0]] + s[1..];
    }
  }
}
