/** The escaping `markdownToHtml` applies to the body of a fenced code block
    (services/geminiService.js, line 188): every `<` becomes `&lt;`, then
    every `>` becomes `&gt;`. Nothing else is escaped, `&` included. */
module CodeEscape {

  /** `s.replace(/c/g, rep)` for a one-code-point pattern. */
  function ReplaceChar(s: string, c: char, rep: string): (r: string)
    ensures c !in rep ==> c !in r
    ensures c !in s ==> r == s
    decreases |s|
  {
    if s == [] then ""
    else (if s[0] == c then rep else [s[0]]) + ReplaceChar(s[1..], c, rep)
  }

  /** The two substitutions, in the order the source runs them. */
  function Escape(s: string): string {
    ReplaceChar(ReplaceChar(s, '<', "&lt;"), '>', "&gt;")
  }

  /** The entity each code point turns into, taken one at a time. */
  function EscapeChar(c: char): string {
    if c == '<' then "&lt;" else if c == '>' then "&gt;" else [c]
  }

  function EscapeEach(s: string): string
    decreases |s|
  {
    if s == [] then "" else EscapeChar(s[0]) + EscapeEach(s[1..])
  }

  /** Reads the two entities back; every other code point stands for
      itself. */
  function Unescape(t: string): string
    decreases |t|
  {
    if t == [] then ""
    else if |t| >= 4 && t[..4] == "&lt;" then "<" + Unescape(t[4..])
    else if |t| >= 4 && t[..4] == "&gt;" then ">" + Unescape(t[4..])
    else [t[0]] + Unescape(t[1..])
  }

  lemma {:induction false} ReplaceCharAppend(a: string, b: string, c: char, rep: string)
    ensures ReplaceChar(a + b, c, rep) == ReplaceChar(a, c, rep) + ReplaceChar(b, c, rep)
    decreases |a|
  {
    if a == [] {
      assert a + b == b;
    } else {
      assert (a + b)[0] == a[0] && (a + b)[1..] == a[1..] + b;
      ReplaceCharAppend(a[1..], b, c, rep);
    }
  }

  /** Running the two global substitutions one after the other is the same
      as escaping each code point on its own: `&lt;` holds no `>` for the
      second pass to touch. */
  lemma {:induction false} EscapeIsPointwise(s: string)
    ensures Escape(s) == EscapeEach(s)
    decreases |s|
  {
    if s != [] {
      var first := if s[0] == '<' then "&lt;" else [s[0]];
      var rest := ReplaceChar(s[1..], '<', "&lt;");
      assert ReplaceChar(s, '<', "&lt;") == first + rest;
      ReplaceCharAppend(first, rest, '>', "&gt;");
      assert ReplaceChar(first, '>', "&gt;") == EscapeChar(s[0]) by {
        if s[0] == '<' {
          assert '>' !in first;
        } else if s[0] == '>' {
          assert ReplaceChar(first, '>', "&gt;") == "&gt;" + ReplaceChar([], '>', "&gt;");
        } else {
          assert '>' !in first;
        }
      }
      EscapeIsPointwise(s[1..]);
    }
  }

  /** The escaped body holds no angle bracket, so it cannot open or close an
      element. */
  lemma EscapeHasNoAngles(s: string)
    ensures '<' !in Escape(s) && '>' !in Escape(s)
  {
    NotInReplaceChar(ReplaceChar(s, '<', "&lt;"), '>', "&gt;", '<');
  }

  /** A code point that is in neither the text nor the replacement is not
      in the output either. */
  lemma {:induction false} NotInReplaceChar(t: string, c: char, rep: string, x: char)
    requires x !in t && x !in rep
    ensures x !in ReplaceChar(t, c, rep)
    decreases |t|
  {
    if t != [] {
      assert t[0] != x;
      NotInReplaceChar(t[1..], c, rep, x);
    }
  }

  /** Reading the entities back gives the code block's text again, as long as
      the text holds no `&` of its own. */
  lemma {:induction false} UnescapeEscape(s: string)
    requires '&' !in s
    ensures Unescape(Escape(s)) == s
  {
    EscapeIsPointwise(s);
    UnescapeEach(s);
  }

  lemma {:induction false} UnescapeEach(s: string)
    requires '&' !in s
    ensures Unescape(EscapeEach(s)) == s
    decreases |s|
  {
    if s != [] {
      var e := EscapeChar(s[0]);
      var rest := EscapeEach(s[1..]);
      var t := e + rest;
      assert '&' !in s[1..] by { assert forall i :: 0 <= i < |s[1..]| ==> s[1..][i] == s[i + 1]; }
      UnescapeEach(s[1..]);
      if s[0] == '<' || s[0] == '>' {
        assert t[..4] == e && t[4..] == rest;
      } else {
        assert t[0] == s[0] && t[1..] == rest;
      }
      assert s == [s[0]] + s[1..];
    }
  }
}
