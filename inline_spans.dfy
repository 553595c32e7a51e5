/** `processInline` (services/geminiService.js, lines 152-157): three global
    regular-expression substitutions applied one after the other to the text
    of one line, bold first, then italic, then inline code. Each substitution
    is modelled as a left-to-right scan that, at every position, either
    matches the rule's pattern there (and skips over the match) or copies one
    code point. */
module InlineSpans {
  import opened Wrappers
  import opened Text

  /** The three substitutions, in the order `processInline` runs them. */
  datatype Rule = Bold | Italic | Code

  /** The delimiter each pattern is built around: `\*\*(.*?)\*\*`,
      `\*(.*?)\*` and `` `([^`]+)` ``. */
  function Delimiter(rule: Rule): (d: string)
    ensures |d| >= 1
  {
    match rule
    case Bold => "**"
    case Italic => "*"
    case Code => "`"
  }

  function OpenTag(rule: Rule): string {
    match rule
    case Bold => "<strong class=\"text-indigo-300\">"
    case Italic => "<em class=\"text-gray-400\">"
    case Code =>
      "<code class=\"" + "bg-gray-800 text-indigo-200 " + "px-1.5 py-0.5 rounded "
      + "font-mono text-sm " + "border border-gray-700" + "\">"
  }

  function CloseTag(rule: Rule): string {
    match rule
    case Bold => "</strong>"
    case Italic => "</em>"
    case Code => "</code>"
  }

  /** The index of the first occurrence of `d` at or after `k`. When
      `lineOnly` holds (the `.` of a lazy `(.*?)`), the scan gives up at the
      first line terminator, which `.` cannot step over. */
  function FirstClose(s: string, d: string, k: nat, lineOnly: bool): (r: Option<nat>)
    requires |d| >= 1 && k <= |s|
    ensures r.Some? ==> k <= r.value && OccursAt(s, d, r.value)
    ensures r.Some? ==> forall j :: k <= j < r.value ==> !OccursAt(s, d, j)
    ensures r.Some? && lineOnly ==> NoLineTerminator(s[k..r.value])
    ensures r.None? ==> forall j :: k <= j <= |s| && OccursAt(s, d, j) ==> lineOnly && !NoLineTerminator(s[k..j])
    decreases |s| - k
  {
    if StartsWith(s[k..], d) then
      assert OccursAt(s, d, k) by { assert s[k..][..|d|] == s[k..k + |d|]; }
      Some(k)
    else
      assert !OccursAt(s, d, k) by {
        if k + |d| <= |s| { assert s[k..][..|d|] == s[k..k + |d|]; }
      }
      if k == |s| then None
      else if lineOnly && IsLineTerminator(s[k]) then
        assert forall j :: k < j <= |s| ==> s[k..j][0] == s[k];
        None
      else
        var r := FirstClose(s, d, k + 1, lineOnly);
        assert forall j :: k + 1 <= j <= |s| ==> s[k..j] == [s[k]] + s[k + 1..j];
        r
  }

  /** What a matched span's content looks like: for the lazy emphasis
      patterns, a run of non-terminators that holds no delimiter; for inline
      code, a non-empty run without backticks. */
  predicate SpanContent(rule: Rule, c: string) {
    match rule
    case Code => c != [] && '`' !in c
    case _ => NoLineTerminator(c) && forall p :: 0 <= p <= |c| ==> !OccursAt(c, Delimiter(rule), p)
  }

  /** The pattern of `rule` matches at the start of `s` with content `c`:
      delimiter, a content the pattern allows, delimiter. */
  predicate IsMatch(s: string, rule: Rule, c: string) {
    StartsWith(s, Delimiter(rule) + c + Delimiter(rule)) && SpanContent(rule, c)
  }

  /** The content of the match of `rule`'s pattern at the very start of `s`,
      if the pattern matches there. The match closes at the first closing
      delimiter (the lazy `(.*?)`, and the only possible close for
      `[^`]+`), and there is a match whenever some content fits the
      pattern. */
  function MatchAt(s: string, rule: Rule): (r: Option<string>)
    ensures r.Some? ==> StartsWith(s, Delimiter(rule) + r.value + Delimiter(rule))
    ensures r.Some? ==> SpanContent(rule, r.value)
    ensures r.Some? ==> forall k :: |Delimiter(rule)| <= k < |Delimiter(rule)| + |r.value| ==> !OccursAt(s, Delimiter(rule), k)
    ensures r.None? ==> forall c :: !IsMatch(s, rule, c)
    ensures !StartsWith(s, Delimiter(rule)) ==> r.None?
  {
    var d := Delimiter(rule);
    if !StartsWith(s, d) then
      NoMatchWithoutOpen(s, rule);
      None
    else
      match FirstClose(s, d, |d|, rule != Code)
      case None =>
        NoMatchWithoutClose(s, rule);
        None
      case Some(j) =>
        if rule == Code && j == 1 then
          NoEmptyCode(s);
          None
        else
          SpanFramed(s, d, j);
          if rule == Code then
            CodeContent(s, j);
            Some(s[|d|..j])
          else
            EmphasisContent(s, d, j);
            Some(s[|d|..j])
  }

  /** A match of the pattern begins with the opening delimiter, holds its
      content right after it and has the closing delimiter after that. */
  lemma MatchFramed(s: string, rule: Rule, c: string)
    requires IsMatch(s, rule, c)
    ensures StartsWith(s, Delimiter(rule))
    ensures 2 * |Delimiter(rule)| + |c| <= |s|
    ensures s[|Delimiter(rule)|..|Delimiter(rule)| + |c|] == c
    ensures OccursAt(s, Delimiter(rule), |Delimiter(rule)| + |c|)
  {
    var d := Delimiter(rule);
    var n := |d| + |c| + |d|;
    var w := d + c + d;
    assert s[..n] == w;
    forall m | 0 <= m < n ensures s[m] == w[m] {
      assert s[..n][m] == s[m];
    }
    assert s[..|d|] == d;
    assert s[|d|..|d| + |c|] == c;
    assert s[|d| + |c|..n] == d;
  }

  lemma NoMatchWithoutOpen(s: string, rule: Rule)
    requires !StartsWith(s, Delimiter(rule))
    ensures forall c :: !IsMatch(s, rule, c)
  {
    forall c | IsMatch(s, rule, c) ensures false {
      MatchFramed(s, rule, c);
    }
  }

  /** With no closing delimiter reachable, nothing matches. */
  lemma NoMatchWithoutClose(s: string, rule: Rule)
    requires |Delimiter(rule)| <= |s|
    requires FirstClose(s, Delimiter(rule), |Delimiter(rule)|, rule != Code).None?
    ensures forall c :: !IsMatch(s, rule, c)
  {
    var d := Delimiter(rule);
    forall c | IsMatch(s, rule, c) ensures false {
      MatchFramed(s, rule, c);
    }
  }

  /** `[^`]+` needs a character between the backticks. */
  lemma NoEmptyCode(s: string)
    requires 1 <= |s| && OccursAt(s, "`", 1)
    ensures forall c :: !IsMatch(s, Code, c)
  {
    forall c | IsMatch(s, Code, c) ensures false {
      CodeMatchNotClosedAtOne(s, c);
    }
  }

  /** In a code match the character after the opening backtick is the first
      of the content, so it is no backtick. */
  lemma CodeMatchNotClosedAtOne(s: string, c: string)
    requires IsMatch(s, Code, c)
    ensures !OccursAt(s, "`", 1)
  {
    MatchFramed(s, Code, c);
    assert s[1..1 + |c|][0] == c[0] == s[1];
    assert s[1..2][0] == s[1];
  }

  /** `MatchAt` finds the pattern exactly when it matches, and then takes the
      shortest content, as the lazy quantifier does. */
  lemma MatchAtIsShortest(s: string, rule: Rule, c: string)
    requires IsMatch(s, rule, c)
    ensures MatchAt(s, rule).Some? && |MatchAt(s, rule).value| <= |c|
  {
    MatchFramed(s, rule, c);
  }

  /** An opening delimiter, the text up to index `j`, and the delimiter that
      occurs at `j`. */
  lemma SpanFramed(s: string, d: string, j: nat)
    requires |d| <= j && OccursAt(s, d, j) && StartsWith(s, d)
    ensures StartsWith(s, d + s[|d|..j] + d)
  {
    assert s[..|d| + (j - |d|) + |d|] == s[..|d|] + s[|d|..j] + s[j..j + |d|];
  }

  /** Between a backtick at 0 and the first one after it lies a run without
      backticks. */
  lemma CodeContent(s: string, j: nat)
    requires 1 < j <= |s| && forall k :: 1 <= k < j ==> !OccursAt(s, "`", k)
    ensures SpanContent(Code, s[1..j])
  {
    var c := s[1..j];
    forall i | 0 <= i < |c| ensures c[i] != '`' {
      assert !OccursAt(s, "`", 1 + i);
      assert s[1 + i] == c[i];
      assert s[1 + i..2 + i] == [s[1 + i]];
    }
  }

  /** Between an opening delimiter and the first closing one lies a text in
      which the delimiter does not occur. */
  lemma EmphasisContent(s: string, d: string, j: nat)
    requires d == "**" || d == "*"
    requires |d| <= j <= |s| && NoLineTerminator(s[|d|..j])
    requires forall k :: |d| <= k < j ==> !OccursAt(s, d, k)
    ensures NoLineTerminator(s[|d|..j]) && forall p :: 0 <= p <= |s[|d|..j]| ==> !OccursAt(s[|d|..j], d, p)
  {
    var c := s[|d|..j];
    forall p | 0 <= p <= |c| ensures !OccursAt(c, d, p) {
      if OccursAt(c, d, p) {
        assert p + |d| <= |c|;
        forall m | 0 <= m < |d| ensures s[|d| + p + m] == d[m] {
          assert c[p..p + |d|][m] == c[p + m] == s[|d| + p + m];
        }
        assert s[|d| + p..|d| + p + |d|] == d;
        assert OccursAt(s, d, |d| + p);
      }
    }
  }

  /** One step of a scan: a code point copied as is, or a matched span. */
  datatype Piece = Plain(c: char) | Span(content: string)

  /** Puts the delimiters back around every span: the text the scan read. */
  function Restore(pieces: seq<Piece>, rule: Rule): string
    decreases |pieces|
  {
    if pieces == [] then ""
    else
      (match pieces[0]
       case Plain(c) => [c]
       case Span(c) => Delimiter(rule) + c + Delimiter(rule))
      + Restore(pieces[1..], rule)
  }

  /** Replaces every span by the rule's element: the text the substitution
      writes. */
  function Emit(pieces: seq<Piece>, rule: Rule): string
    decreases |pieces|
  {
    if pieces == [] then ""
    else
      (match pieces[0]
       case Plain(c) => [c]
       case Span(c) => OpenTag(rule) + c + CloseTag(rule))
      + Emit(pieces[1..], rule)
  }

  /** The global regular-expression scan: leftmost match first, then resume
      right after it. The pieces spell `s` back out and every span has the
      content the pattern allows. */
  function Scan(s: string, rule: Rule): (r: seq<Piece>)
    ensures Restore(r, rule) == s
    ensures forall i :: 0 <= i < |r| && r[i].Span? ==> SpanContent(rule, r[i].content)
    decreases |s|
  {
    if s == [] then []
    else
      var d := Delimiter(rule);
      match MatchAt(s, rule)
      case Some(c) =>
        var n := |d| + |c| + |d|;
        var rest := Scan(s[n..], rule);
        assert s == d + c + d + s[n..] by { assert s[..n] == d + c + d; }
        assert ([Span(c)] + rest)[1..] == rest;
        [Span(c)] + rest
      case None =>
        var rest := Scan(s[1..], rule);
        assert ([Plain(s[0])] + rest)[1..] == rest;
        [Plain(s[0])] + rest
  }

  /** The scan copies a code point only where the pattern does not match:
      no match is skipped over. */
  lemma {:induction false} ScanIsLeftmost(s: string, rule: Rule, i: nat)
    requires i < |Scan(s, rule)| && Scan(s, rule)[i].Plain?
    ensures MatchAt(Restore(Scan(s, rule)[i..], rule), rule).None?
    ensures forall c :: !IsMatch(Restore(Scan(s, rule)[i..], rule), rule, c)
    decreases |s|
  {
    var r := Scan(s, rule);
    var d := Delimiter(rule);
    if i == 0 {
      assert r[0..] == r;
    } else {
      match MatchAt(s, rule)
      case Some(c) =>
        var n := |d| + |c| + |d|;
        assert r[i..] == Scan(s[n..], rule)[i - 1..];
        ScanIsLeftmost(s[n..], rule, i - 1);
      case None =>
        assert r[i..] == Scan(s[1..], rule)[i - 1..];
        ScanIsLeftmost(s[1..], rule, i - 1);
    }
  }

  /** One substitution: `text.replace(pattern, element)` with the `g` flag. */
  function Replace(s: string, rule: Rule): string {
    Emit(Scan(s, rule), rule)
  }

  /** `processInline`: bold, then italic, then inline code, each over the
      output of the one before. */
  function ProcessInline(text: string): string {
    Replace(Replace(Replace(text, Bold), Italic), Code)
  }

  /** A substitution leaves a text alone when the text holds no code point
      that can start its delimiter. */
  lemma {:induction false} ReplaceWithoutDelimiter(s: string, rule: Rule)
    requires Delimiter(rule)[0] !in s
    ensures Replace(s, rule) == s
    decreases |s|
  {
    if s != [] {
      assert !StartsWith(s, Delimiter(rule));
      ReplaceNoMatchFirst(s, rule);
      ReplaceWithoutDelimiter(s[1..], rule);
      assert s == [s[0]] + s[1..];
    }
  }

  /** A line with no `*` and no backtick comes out of `processInline`
      unchanged. */
  lemma PlainTextUnchanged(text: string)
    requires '*' !in text && '`' !in text
    ensures ProcessInline(text) == text
  {
    ReplaceWithoutDelimiter(text, Bold);
    ReplaceWithoutDelimiter(text, Italic);
    ReplaceWithoutDelimiter(text, Code);
  }

  lemma ConsAppend(a: string, r: string)
    requires a != []
    ensures [a[0]] + (a[1..] + r) == a + r
  {
    assert a == [a[0]] + a[1..];
  }

  /** Where the pattern does not match at the start, the substitution copies
      the first code point and carries on after it. */
  lemma ReplaceNoMatchFirst(s: string, rule: Rule)
    requires s != [] && MatchAt(s, rule).None?
    ensures Replace(s, rule) == [s[0]] + Replace(s[1..], rule)
  {
    assert Scan(s, rule) == [Plain(s[0])] + Scan(s[1..], rule);
  }

  /** Text without the rule's delimiter character passes through a
      substitution unchanged ahead of whatever follows it. */
  lemma {:induction false} ReplacePlainPrefix(a: string, b: string, rule: Rule)
    requires Delimiter(rule)[0] !in a
    ensures Replace(a + b, rule) == a + Replace(b, rule)
    decreases |a|
  {
    if a == [] {
      assert a + b == b;
    } else {
      var s := a + b;
      var tail := a[1..];
      assert Replace(s, rule) == [a[0]] + Replace(tail + b, rule) by {
        assert s[0] == a[0] && s[1..] == tail + b;
        assert !StartsWith(s, Delimiter(rule));
        ReplaceNoMatchFirst(s, rule);
      }
      assert Delimiter(rule)[0] !in tail by {
        assert forall i :: 0 <= i < |tail| ==> tail[i] == a[i + 1];
      }
      ReplacePlainPrefix(tail, b, rule);
      ConsAppend(a, Replace(b, rule));
    }
  }

  /** Where the pattern matches at the start, the substitution writes the
      element and carries on after the match. */
  lemma ReplaceMatchFirst(s: string, rule: Rule, c: string)
    requires MatchAt(s, rule) == Some(c)
    ensures var n := 2 * |Delimiter(rule)| + |c|;
      n <= |s| && Replace(s, rule) == OpenTag(rule) + c + CloseTag(rule) + Replace(s[n..], rule)
  {
    var n := 2 * |Delimiter(rule)| + |c|;
    assert Scan(s, rule) == [Span(c)] + Scan(s[n..], rule);
  }

  /** `**` on its own: the bold pattern finds nothing to close it, the
      italic pattern matches it with an empty content. */
  lemma DoubleStarPasses()
    ensures Replace("**", Bold) == "**"
    ensures Replace("**", Italic) == OpenTag(Italic) + CloseTag(Italic)
  {
    var s := "**";
    assert FirstClose(s, "**", 2, true).None?;
    assert MatchAt(s, Bold).None?;
    assert MatchAt(s[1..], Bold).None?;
    assert Scan(s[1..], Bold) == [Plain('*')];
    assert FirstClose(s, "*", 1, true) == Some(1);
    assert MatchAt(s, Italic) == Some("");
    ReplaceMatchFirst(s, Italic, "");
  }

  /** A lone `**` is not bold but comes out as an empty em element. */
  lemma DoubleStarIsEmptyItalic()
    ensures ProcessInline("**") == OpenTag(Italic) + CloseTag(Italic)
  {
    DoubleStarPasses();
    ReplaceWithoutDelimiter(OpenTag(Italic) + CloseTag(Italic), Code);
  }

  /** The elements the substitutions write contain no `*` and no backtick,
      so a later pass never matches inside them. */
  lemma TagsHoldNoDelimiter(rule: Rule)
    ensures '*' !in OpenTag(rule) && '`' !in OpenTag(rule)
    ensures '*' !in CloseTag(rule) && '`' !in CloseTag(rule)
  {
    match rule
    case Bold => NoDelimiterIn("<strong class=\"text-indigo-300\">"); NoDelimiterIn("</strong>");
    case Italic => NoDelimiterIn("<em class=\"text-gray-400\">"); NoDelimiterIn("</em>");
    case Code =>
      NoDelimiterIn("<code class=\"");
      NoDelimiterIn("bg-gray-800 text-indigo-200 ");
      NoDelimiterIn("px-1.5 py-0.5 rounded ");
      NoDelimiterIn("font-mono text-sm ");
      NoDelimiterIn("border border-gray-700");
      NoDelimiterIn("\">");
      NoDelimiterIn("</code>");
  }

  lemma NoDelimiterIn(t: string)
    requires forall i :: 0 <= i < |t| ==> t[i] != '*' && t[i] != '`'
    ensures '*' !in t && '`' !in t
  {
  }

  /** The bold pattern at the start of `**a** b**` matches `**a**`. */
  lemma BoldMatchOfExample()
    ensures MatchAt("**a** b**", Bold) == Some("a")
  {
    var s := "**a** b**";
    assert s[2..][..2] == "a*" && s[3..][..2] == "**";
    assert !IsLineTerminator(s[2]);
    assert FirstClose(s, "**", 3, true) == Some(3);
    assert FirstClose(s, "**", 2, true) == Some(3);
    assert s[2..3] == "a";
  }

  /** The bold pass over `**a** b**` closes at the first `**` after the
      opening one and finds nothing to close the last `**`. */
  lemma BoldPassIsLazy()
    ensures Replace("**a** b**", Bold) == OpenTag(Bold) + "a" + CloseTag(Bold) + " b" + "**"
  {
    var s := "**a** b**";
    BoldMatchOfExample();
    assert s[5..] == " b" + "**";
    BoldPassLeavesTail();
    ReplaceMatchThenRest(s, Bold, "a", " b", "**");
  }

  /** `ReplaceMatchFirst` with what the rest of the text becomes already
      known, in two parts. */
  lemma ReplaceMatchThenRest(s: string, rule: Rule, c: string, r1: string, r2: string)
    requires MatchAt(s, rule) == Some(c)
    requires 2 * |Delimiter(rule)| + |c| <= |s|
    requires Replace(s[2 * |Delimiter(rule)| + |c|..], rule) == r1 + r2
    ensures Replace(s, rule) == OpenTag(rule) + c + CloseTag(rule) + r1 + r2
  {
    ReplaceMatchFirst(s, rule, c);
  }

  /** Nothing closes a `**` at the end of a line. */
  lemma BoldPassLeavesTail()
    ensures Replace(" b" + "**", Bold) == " b" + "**"
  {
    DoubleStarPasses();
    ReplacePlainPrefix(" b", "**", Bold);
  }

  /** Bold takes the shortest span; a `**` left over after it is picked up
      by the italic pass as an empty element. */
  lemma BoldIsLazy()
    ensures ProcessInline("**a** b**")
         == OpenTag(Bold) + "a" + CloseTag(Bold) + " b" + OpenTag(Italic) + CloseTag(Italic)
  {
    var pre := OpenTag(Bold) + "a" + CloseTag(Bold) + " b";
    BoldPassIsLazy();
    TagsHoldNoDelimiter(Bold);
    assert '*' !in pre && '`' !in pre;
    ItalicPassAfter(pre);
  }

  /** What the italic and code passes make of a text free of `*` and
      backticks followed by a lone `**`. */
  lemma ItalicPassAfter(pre: string)
    requires '*' !in pre && '`' !in pre
    ensures Replace(Replace(pre + "**", Italic), Code) == pre + OpenTag(Italic) + CloseTag(Italic)
  {
    var tags := OpenTag(Italic) + CloseTag(Italic);
    var out := pre + tags;
    ReplacePlainPrefix(pre, "**", Italic);
    DoubleStarPasses();
    assert Replace(pre + "**", Italic) == out;
    TagsHoldNoDelimiter(Italic);
    assert '`' !in tags;
    assert '`' !in out;
    ReplaceWithoutDelimiter(out, Code);
    assert pre + OpenTag(Italic) + CloseTag(Italic) == out;
  }

  /** A text in which the delimiter occurs nowhere passes a substitution
      unchanged. */
  lemma {:induction false} ReplaceWithoutOccurrence(s: string, rule: Rule)
    requires forall k: nat :: !OccursAt(s, Delimiter(rule), k)
    ensures Replace(s, rule) == s
    decreases |s|
  {
    if s != [] {
      var d := Delimiter(rule);
      var tail := s[1..];
      assert Replace(s, rule) == [s[0]] + Replace(tail, rule) by {
        assert !OccursAt(s, d, 0);
        ReplaceNoMatchFirst(s, rule);
      }
      assert forall k: nat :: !OccursAt(tail, d, k) by {
        forall k: nat ensures !OccursAt(tail, d, k) {
          ShiftOccurrence(s, d, k);
        }
      }
      ReplaceWithoutOccurrence(tail, rule);
      assert s == [s[0]] + tail;
    }
  }

  lemma ShiftOccurrence(s: string, d: string, k: nat)
    requires s != []
    ensures OccursAt(s[1..], d, k) ==> OccursAt(s, d, k + 1)
  {
    if k + |d| <= |s| - 1 {
      assert s[1..][k..k + |d|] == s[k + 1..k + 1 + |d|];
    }
  }

  lemma ItalicMatchOfExample()
    ensures MatchAt("*x*`", Italic) == Some("x")
  {
    var t := "*x*`";
    assert t[1..][..1] == "x" && t[2..][..1] == "*";
    assert !IsLineTerminator(t[1]);
    assert FirstClose(t, "*", 2, true) == Some(2);
    assert FirstClose(t, "*", 1, true) == Some(2);
    assert t[1..2] == "x";
  }

  /** The italic pass over `` `*x*` `` writes an em element between the
      backticks. */
  lemma ItalicPassInsideCode()
    ensures Replace("`*x*`", Italic) == "`" + (OpenTag(Italic) + "x" + CloseTag(Italic)) + "`"
  {
    var s := "`*x*`";
    assert Replace(s, Italic) == "`" + Replace("*x*`", Italic) by {
      assert s[..1] == "`";
      ReplaceNoMatchFirst(s, Italic);
      assert s[1..] == "*x*`";
    }
    assert Replace("*x*`", Italic) == OpenTag(Italic) + "x" + CloseTag(Italic) + "`" by {
      ItalicMatchOfExample();
      ReplaceMatchFirst("*x*`", Italic, "x");
      assert "*x*`"[3..] == "`";
      ReplaceWithoutDelimiter("`", Italic);
    }
  }

  /** A backtick pair around a non-empty run without backticks becomes one
      code element, whatever the run holds. */
  lemma CodeAroundRun(c: string)
    requires c != [] && '`' !in c
    ensures Replace("`" + c + "`", Code) == OpenTag(Code) + c + CloseTag(Code)
  {
    var u := "`" + c + "`";
    var n := |u| - 1;
    assert MatchAt(u, Code) == Some(c) by {
      assert OccursAt(u, "`", n) by { assert u[n..n + 1] == [u[n]]; }
      forall j | 1 <= j < n ensures !OccursAt(u, "`", j) {
        assert u[j] == c[j - 1];
        assert u[j..j + 1][0] == u[j];
      }
      assert FirstClose(u, "`", 1, false) == Some(n);
      assert u[1..n] == c;
    }
    ReplaceMatchFirst(u, Code, c);
    assert u[n + 1..] == [];
  }

  lemma BoldPassSkipsSingleStars()
    ensures Replace("`*x*`", Bold) == "`*x*`"
  {
    var s := "`*x*`";
    forall k: nat ensures !OccursAt(s, "**", k) {
      if k + 2 <= |s| {
        assert s[k..k + 2][0] == s[k] && s[k..k + 2][1] == s[k + 1];
      }
    }
    ReplaceWithoutOccurrence(s, Bold);
  }

  /** The code pass runs over what the emphasis passes wrote: a backtick pair
      around `*x*` becomes a code element holding the em element. */
  lemma CodeAfterEmphasis()
    ensures ProcessInline("`*x*`")
         == OpenTag(Code) + (OpenTag(Italic) + "x" + CloseTag(Italic)) + CloseTag(Code)
  {
    var c := OpenTag(Italic) + "x" + CloseTag(Italic);
    assert Replace(Replace("`*x*`", Bold), Italic) == "`" + c + "`" by {
      BoldPassSkipsSingleStars();
      ItalicPassInsideCode();
    }
    assert c != [] && '`' !in c by {
      TagsHoldNoDelimiter(Italic);
      assert '`' !in "x";
    }
    CodeAroundRun(c);
  }
}
