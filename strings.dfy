/** The string operations of the translator, with the meaning the Python
    built-ins they stand for give them. */
module Strings {

  /** Python's `sub in s` on two strings: `sub` occurs contiguously in `s`. */
  predicate Contains(s: string, sub: string)
    decreases |s|
  {
    sub <= s || (s != [] && Contains(s[1..], sub))
  }

  /** Python's `s.replace(c, "")` for a one-character string `c`: every `c`
      is dropped and every other character is kept as often as it occurs. */
  function RemoveChar(s: string, c: char): (r: string)
    ensures c !in r
    ensures forall x :: x != c ==> multiset(r)[x] == multiset(s)[x]
    ensures c !in s ==> r == s
  {
    if s == [] then []
    else
      assert s == [s[0]] + s[1..];
      (if s[0] == c then [] else [s[0]]) + RemoveChar(s[1..], c)
  }

  /** `replace` drops one character on its own exactly when it is `c`. */
  lemma RemoveCharOne(x: char, c: char)
    ensures RemoveChar([x], c) == if x == c then [] else [x]
  {
    assert [x][1..] == [];
  }

  /** `replace` works piece by piece, so the kept characters stay in their
      order: together with `RemoveCharOne` this fixes the result of every
      string. */
  lemma {:induction false} RemoveCharAppend(a: string, b: string, c: char)
    ensures RemoveChar(a + b, c) == RemoveChar(a, c) + RemoveChar(b, c)
  {
    if a == [] {
      assert a + b == b;
    } else {
      assert (a + b)[0] == a[0];
      assert (a + b)[1..] == a[1..] + b;
      RemoveCharAppend(a[1..], b, c);
    }
  }

  /** Python's `sep.join(parts)`. */
  function Join(sep: string, parts: seq<string>): string
  {
    if parts == [] then ""
    else if |parts| == 1 then parts[0]
    else parts[0] + sep + Join(sep, parts[1..])
  }

  /** One character through Python's `html.escape(s)` (with `quote=True`,
      the default). */
  function EscapeChar(c: char): string
  {
    match c
    case '&' => "&amp;"
    case '<' => "&lt;"
    case '>' => "&gt;"
    case '"' => "&quot;"
    case '\'' => "&#x27;"
    case _ => [c]
  }

  /** Python's `html.escape(s)`. */
  function HtmlEscape(s: string): string
  {
    if s == [] then "" else EscapeChar(s[0]) + HtmlEscape(s[1..])
  }

  /** Python's `s.replace(".", "&#46;")`. */
  function ReplaceDots(s: string): string
  {
    if s == [] then "" else (if s[0] == '.' then "&#46;" else [s[0]]) + ReplaceDots(s[1..])
  }

  /** The action text as it appears in a node label: HTML-escaped, then
      every period written as the entity `&#46;`. The footer holds none of
      the characters that markup or a dotted path would interpret, and it
      loses nothing: unescaping it gives the action back. */
  function ActionFooter(action: string): (r: string)
    ensures '.' !in r && '<' !in r && '>' !in r && '"' !in r && '\'' !in r
    ensures Unescape(r) == action
  {
    FooterIsEncoding(action);
    EncodingIsSafe(action);
    UnescapeEncoding(action);
    ReplaceDots(HtmlEscape(action))
  }

  /** The inverse of the footer encoding: the five entities of `html.escape`
      and `&#46;` are read back as the characters they stand for. */
  function Unescape(t: string): string
    decreases |t|
  {
    if t == [] then ""
    else if "&amp;" <= t then "&" + Unescape(t[5..])
    else if "&lt;" <= t then "<" + Unescape(t[4..])
    else if "&gt;" <= t then ">" + Unescape(t[4..])
    else if "&quot;" <= t then "\"" + Unescape(t[6..])
    else if "&#x27;" <= t then "'" + Unescape(t[6..])
    else if "&#46;" <= t then "." + Unescape(t[5..])
    else [t[0]] + Unescape(t[1..])
  }

  /** What escaping and then replacing periods does to one character. */
  function EncodeChar(c: char): string
  {
    if c == '.' then "&#46;" else EscapeChar(c)
  }

  function Encode(s: string): string
  {
    if s == [] then "" else EncodeChar(s[0]) + Encode(s[1..])
  }

  lemma {:induction false} ReplaceDotsAppend(a: string, b: string)
    ensures ReplaceDots(a + b) == ReplaceDots(a) + ReplaceDots(b)
  {
    if a != [] {
      assert (a + b)[1..] == a[1..] + b;
      ReplaceDotsAppend(a[1..], b);
    } else {
      assert a + b == b;
    }
  }

  lemma {:induction false} ReplaceDotsNoDot(s: string)
    requires '.' !in s
    ensures ReplaceDots(s) == s
  {
    if s != [] {
      ReplaceDotsNoDot(s[1..]);
    }
  }

  lemma {:induction false} FooterIsEncoding(s: string)
    ensures ReplaceDots(HtmlEscape(s)) == Encode(s)
  {
    if s != [] {
      var c := s[0];
      ReplaceDotsAppend(EscapeChar(c), HtmlEscape(s[1..]));
      FooterIsEncoding(s[1..]);
      if c == '.' {
        assert ReplaceDots(EscapeChar(c)) == "&#46;";
      } else {
        ReplaceDotsNoDot(EscapeChar(c));
      }
    }
  }

  lemma EncodeCharIsSafe(c: char)
    ensures '.' !in EncodeChar(c) && '<' !in EncodeChar(c) && '>' !in EncodeChar(c)
    ensures '"' !in EncodeChar(c) && '\'' !in EncodeChar(c)
  {
  }

  lemma {:induction false} EncodingIsSafe(s: string)
    ensures '.' !in Encode(s) && '<' !in Encode(s) && '>' !in Encode(s)
    ensures '"' !in Encode(s) && '\'' !in Encode(s)
  {
    if s != [] {
      EncodeCharIsSafe(s[0]);
      EncodingIsSafe(s[1..]);
    }
  }

  /** An entity followed by anything starts with that entity. */
  lemma PrefixOfAppend(p: string, rest: string)
    ensures p <= p + rest && (p + rest)[|p|..] == rest
  {
    assert (p + rest)[..|p|] == p;
  }

  /** One differing position rules a prefix out. */
  lemma NotPrefixAt(p: string, t: string, k: nat)
    requires k < |p| && k < |t| && p[k] != t[k]
    ensures !(p <= t)
  {
  }

  lemma UnescapeEncodeChar(c: char, rest: string)
    ensures Unescape(EncodeChar(c) + rest) == [c] + Unescape(rest)
  {
    var e := EncodeChar(c);
    var t := e + rest;
    PrefixOfAppend(e, rest);
    if c == '&' {
      assert e == "&amp;";
    } else if c == '<' {
      assert e == "&lt;";
      NotPrefixAt("&amp;", t, 1);
    } else if c == '>' {
      assert e == "&gt;";
      NotPrefixAt("&amp;", t, 1);
      NotPrefixAt("&lt;", t, 1);
    } else if c == '"' {
      assert e == "&quot;";
      NotPrefixAt("&amp;", t, 1);
      NotPrefixAt("&lt;", t, 1);
      NotPrefixAt("&gt;", t, 1);
    } else if c == '\'' {
      assert e == "&#x27;";
      NotPrefixAt("&amp;", t, 1);
      NotPrefixAt("&lt;", t, 1);
      NotPrefixAt("&gt;", t, 1);
      NotPrefixAt("&quot;", t, 1);
    } else if c == '.' {
      assert e == "&#46;";
      NotPrefixAt("&amp;", t, 1);
      NotPrefixAt("&lt;", t, 1);
      NotPrefixAt("&gt;", t, 1);
      NotPrefixAt("&quot;", t, 1);
      NotPrefixAt("&#x27;", t, 2);
    } else {
      assert e == [c];
      NotPrefixAt("&amp;", t, 0);
      NotPrefixAt("&lt;", t, 0);
      NotPrefixAt("&gt;", t, 0);
      NotPrefixAt("&quot;", t, 0);
      NotPrefixAt("&#x27;", t, 0);
      NotPrefixAt("&#46;", t, 0);
    }
  }

  lemma {:induction false} UnescapeEncoding(s: string)
    ensures Unescape(Encode(s)) == s
  {
    if s != [] {
      UnescapeEncodeChar(s[0], Encode(s[1..]));
      UnescapeEncoding(s[1..]);
    }
  }
}
