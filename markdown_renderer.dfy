/** `markdownToHtml` (services/geminiService.js, lines 147-258): the
    document text is split into lines and read once from top to bottom, with
    a small amount of state (inside a fenced code block or not, inside a list
    or not, and of which kind). Each line adds markup for headings, list
    items, block quotes, paragraphs and code blocks.

    The rendering is modelled in two layers. `Render` is the specification:
    it turns the text into a sequence of block fragments (list openings and
    closings, items, headings, quotes, paragraphs, code blocks), and `Html`
    spells fragments out as the exact markup the source writes. The method
    `MarkdownToHtml` is the source's loop over its own variables, proved to
    produce `Html(Render(markdown))`. */
module MarkdownRenderer {
  import opened Wrappers
  import opened Text
  import opened InlineSpans
  import opened CodeEscape

  datatype ListKind = Unordered | Ordered

  /** The element name the source keeps in `listType`. */
  function ListTag(kind: ListKind): string {
    match kind
    case Unordered => "ul"
    case Ordered => "ol"
  }

  /** One block of output, holding its text before inline processing. */
  datatype Fragment =
    | ListOpen(kind: ListKind)
    | ListClose(kind: ListKind)
    | ListItem(text: string)
    | Heading(level: nat, text: string)
    | Blockquote(text: string)
    | Paragraph(text: string)
    | CodeBlock(language: string, lines: seq<string>)

  /** Where the reader stands between two lines: outside any block, inside a
      list of some kind, or inside a fenced code block whose language and
      lines so far are kept. */
  datatype Mode = Idle | InList(kind: ListKind) | InCode(language: string, buffer: seq<string>)

  /** The fragments written so far and the mode reached. */
  datatype Progress = Progress(mode: Mode, frags: seq<Fragment>)

  // ---------------------------------------------------------------------
  // Reading one line: the four line patterns

  predicate IsDigit(c: char) {
    '0' <= c <= '9'
  }

  /** The number of times `c` repeats at the start of `s`. */
  function CountLeading(s: string, c: char): (n: nat)
    ensures n <= |s| && forall i :: 0 <= i < n ==> s[i] == c
    ensures n == |s| || s[n] != c
    decreases |s|
  {
    if s != [] && s[0] == c then 1 + CountLeading(s[1..], c) else 0
  }

  /** The number of decimal digits at the start of `s` (the `\d+`). */
  function DigitRun(s: string): (n: nat)
    ensures n <= |s| && forall i :: 0 <= i < n ==> IsDigit(s[i])
    ensures n == |s| || !IsDigit(s[n])
    decreases |s|
  {
    if s != [] && IsDigit(s[0]) then 1 + DigitRun(s[1..]) else 0
  }

  /** The index of the first line terminator in `s`, or `|s|`: how far a
      greedy `.*` reaches. */
  function LineEnd(s: string): (n: nat)
    ensures n <= |s| && NoLineTerminator(s[..n])
    ensures n == |s| || IsLineTerminator(s[n])
    decreases |s|
  {
    if s != [] && !IsLineTerminator(s[0]) then
      var m := LineEnd(s[1..]);
      assert s[..1 + m] == [s[0]] + s[1..][..m];
      1 + m
    else 0
  }

  /** Where the capture `(.*)` of a pattern ending in `\s+(.*)` starts when
      the whitespace starts at index `k`. */
  function CaptureStart(s: string, k: nat): nat
    requires k <= |s|
  {
    k + LeadingSpaces(s[k..])
  }

  /** What that capture holds. */
  function RestOfLine(s: string, k: nat): string
    requires k <= |s|
  {
    var u := s[CaptureStart(s, k)..];
    u[..LineEnd(u)]
  }

  /** The greedy `\s+` takes the whole run of whitespace at `k`, then `.*`
      takes everything up to the first line terminator. */
  lemma RestOfLineIsCapture(s: string, k: nat)
    requires k <= |s|
    ensures var j, c := CaptureStart(s, k), RestOfLine(s, k);
      k <= j <= |s| - |c| && AllSpace(s[k..j]) && (j == |s| || !IsSpace(s[j]))
      && s[j..j + |c|] == c && NoLineTerminator(c)
      && (j + |c| == |s| || IsLineTerminator(s[j + |c|]))
  {
    SkipSpaces(s, k);
    TakeLine(s, k);
  }

  /** The whitespace run at `k` ends where the capture starts. */
  lemma SkipSpaces(s: string, k: nat)
    requires k <= |s|
    ensures var j := CaptureStart(s, k);
      j <= |s| && AllSpace(s[k..j]) && (j == |s| || !IsSpace(s[j]))
  {
    var t := s[k..];
    var n := LeadingSpaces(t);
    assert s[k..k + n] == t[..n];
    assert k + n < |s| ==> s[k + n] == t[n];
  }

  /** The capture runs from its start to the first line terminator. */
  lemma TakeLine(s: string, k: nat)
    requires k <= |s|
    ensures var j, c := CaptureStart(s, k), RestOfLine(s, k);
      j + |c| <= |s| && s[j..j + |c|] == c && NoLineTerminator(c)
      && (j + |c| == |s| || IsLineTerminator(s[j + |c|]))
  {
    var j := CaptureStart(s, k);
    var u := s[j..];
    var n := LineEnd(u);
    assert RestOfLine(s, k) == u[..n];
    assert s[j..j + n] == u[..n];
    assert j + n < |s| ==> s[j + n] == u[n];
  }

  /** `^(#{1,3})\s+` matches with `n` hashes. */
  predicate HeadingAt(line: string, n: nat) {
    1 <= n <= 3 && n < |line| && (forall i :: 0 <= i < n ==> line[i] == '#') && IsSpace(line[n])
  }

  /** `^[\*\-\+]\s+` matches. */
  predicate BulletShape(line: string) {
    |line| >= 2 && (line[0] == '*' || line[0] == '-' || line[0] == '+') && IsSpace(line[1])
  }

  /** `^\d+\.\s+` matches with `n` digits. */
  predicate NumberedAt(line: string, n: nat) {
    1 <= n && n + 1 < |line| && (forall i :: 0 <= i < n ==> IsDigit(line[i]))
    && line[n] == '.' && IsSpace(line[n + 1])
  }

  /** `^>\s+` matches. */
  predicate QuoteShape(line: string) {
    |line| >= 2 && line[0] == '>' && IsSpace(line[1])
  }

  /** Which pattern a line that is neither a fence, nor in a code block, nor
      blank matches first, and what its capture holds. */
  datatype LineKind =
    | HeadingLine(level: nat, content: string)
    | BulletLine(content: string)
    | NumberedLine(content: string)
    | QuoteLine(content: string)
    | TextLine

  /** The patterns tried in the source's order: heading, bullet item,
      numbered item, block quote; a line that matches none is text. The
      runs of hashes and digits are counted once, greedily. */
  function Classify(line: string): LineKind {
    var h := CountLeading(line, '#');
    var d := DigitRun(line);
    if HeadingAt(line, h) then HeadingLine(h, RestOfLine(line, h))
    else if BulletShape(line) then BulletLine(RestOfLine(line, 1))
    else if NumberedAt(line, d) then NumberedLine(RestOfLine(line, d + 1))
    else if QuoteShape(line) then QuoteLine(RestOfLine(line, 1))
    else TextLine
  }

  /** Counting the hashes greedily finds the only way `#{1,3}\s` can match:
      backtracking to fewer hashes would put a `#` where the whitespace must
      be. */
  lemma HeadingLevelUnique(line: string)
    ensures forall n: nat :: HeadingAt(line, n) ==> n == CountLeading(line, '#')
  {
    assert !IsSpace('#');
  }

  /** Likewise for `\d+\.`: a shorter run of digits is followed by a digit,
      not by the dot. */
  lemma NumberRunUnique(line: string)
    ensures forall n: nat :: NumberedAt(line, n) ==> n == DigitRun(line)
  {
    assert forall c :: IsDigit(c) ==> c != '.';
  }

  /** `#{1,3}`: a heading has one to three hashes. */
  lemma HeadingLevelInRange(line: string)
    ensures Classify(line).HeadingLine? ==> 1 <= Classify(line).level <= 3
  {
  }

  /** The classification is exactly "the first of the four patterns that
      matches", with each capture as the regular expression defines it. */
  lemma ClassifyFollowsPatterns(line: string)
    ensures Classify(line).HeadingLine? <==> exists n: nat :: HeadingAt(line, n)
    ensures Classify(line).HeadingLine? ==>
      HeadingAt(line, Classify(line).level) && Classify(line).content == RestOfLine(line, Classify(line).level)
    ensures Classify(line).BulletLine? <==> (forall n: nat :: !HeadingAt(line, n)) && BulletShape(line)
    ensures Classify(line).BulletLine? ==> Classify(line).content == RestOfLine(line, 1)
    ensures Classify(line).NumberedLine? <==>
      (forall n: nat :: !HeadingAt(line, n)) && !BulletShape(line) && exists n: nat :: NumberedAt(line, n)
    ensures Classify(line).NumberedLine? ==>
      exists n: nat :: NumberedAt(line, n) && Classify(line).content == RestOfLine(line, n + 1)
    ensures Classify(line).QuoteLine? <==>
      (forall n: nat :: !HeadingAt(line, n)) && !BulletShape(line) && (forall n: nat :: !NumberedAt(line, n))
      && QuoteShape(line)
    ensures Classify(line).QuoteLine? ==> Classify(line).content == RestOfLine(line, 1)
  {
    HeadingLevelUnique(line);
    NumberRunUnique(line);
    ClassifyCases(line, CountLeading(line, '#'), DigitRun(line));
  }

  /** `Classify` with the two greedy counts named. */
  lemma ClassifyCases(line: string, h: nat, d: nat)
    requires h == CountLeading(line, '#') && d == DigitRun(line)
    ensures HeadingAt(line, h) ==> Classify(line) == HeadingLine(h, RestOfLine(line, h))
    ensures !HeadingAt(line, h) && BulletShape(line) ==> Classify(line) == BulletLine(RestOfLine(line, 1))
    ensures !HeadingAt(line, h) && !BulletShape(line) && NumberedAt(line, d)
            ==> Classify(line) == NumberedLine(RestOfLine(line, d + 1))
    ensures !HeadingAt(line, h) && !BulletShape(line) && !NumberedAt(line, d) && QuoteShape(line)
            ==> Classify(line) == QuoteLine(RestOfLine(line, 1))
    ensures !HeadingAt(line, h) && !BulletShape(line) && !NumberedAt(line, d) && !QuoteShape(line)
            ==> Classify(line) == TextLine
  {
  }

  /** A line whose trimmed text starts with three backticks opens or closes a
      code block. */
  predicate IsFence(line: string) {
    StartsWith(Trim(line), "```")
  }

  /** The language named after an opening fence, `text` when none is. */
  function FenceLanguage(line: string): (lang: string)
    requires IsFence(line)
    ensures lang != []
  {
    var rest := Trim(line)[3..];
    if rest == "" then "text" else rest
  }

  predicate IsBlank(line: string) {
    Trim(line) == ""
  }

  // ---------------------------------------------------------------------
  // The specification: fragments

  /** `closeList`: the closing of the open list, if there is one. */
  function CloseList(mode: Mode): seq<Fragment> {
    if mode.InList? then [ListClose(mode.kind)] else []
  }

  /** A list item of `kind`: it joins the open list when that list is of the
      same kind, and otherwise closes whatever list is open and opens a new
      one. */
  function AddItem(mode: Mode, kind: ListKind, text: string): Progress {
    if mode == InList(kind) then Progress(mode, [ListItem(text)])
    else Progress(InList(kind), CloseList(mode) + [ListOpen(kind), ListItem(text)])
  }

  /** The body of the source's loop for one line. */
  function Step(mode: Mode, line: string): Progress {
    if IsFence(line) then
      if mode.InCode? then Progress(Idle, [CodeBlock(mode.language, mode.buffer)])
      else Progress(InCode(FenceLanguage(line), []), CloseList(mode))
    else if mode.InCode? then Progress(InCode(mode.language, mode.buffer + [line]), [])
    else if IsBlank(line) then Progress(Idle, CloseList(mode))
    else KindStep(mode, Classify(line), line)
  }

  /** What a line of kind `k`, outside code blocks and not blank, writes: a heading, quote or paragraph closes
      the open list first; an item goes to a list of its kind. */
  function KindStep(mode: Mode, k: LineKind, line: string): Progress {
    match k
    case HeadingLine(level, content) => Progress(Idle, CloseList(mode) + [Heading(level, content)])
    case BulletLine(content) => AddItem(mode, Unordered, content)
    case NumberedLine(content) => AddItem(mode, Ordered, content)
    case QuoteLine(content) => Progress(Idle, CloseList(mode) + [Blockquote(content)])
    case TextLine => Progress(Idle, CloseList(mode) + [Paragraph(line)])
  }

  /** The loop over the first `|lines|` lines, from the initial state. */
  function Run(lines: seq<string>): Progress
    decreases |lines|
  {
    if lines == [] then Progress(Idle, [])
    else
      var p := Run(lines[..|lines| - 1]);
      var q := Step(p.mode, lines[|lines| - 1]);
      Progress(q.mode, p.frags + q.frags)
  }

  /** The final `closeList()`. A code block still open at the end is not
      written. */
  function Finish(p: Progress): seq<Fragment> {
    p.frags + CloseList(p.mode)
  }

  /** The fragments `markdownToHtml` writes for `markdown`. */
  function Render(markdown: string): seq<Fragment> {
    if markdown == [] then [] else Finish(Run(Split(markdown, '\n')))
  }

  // ---------------------------------------------------------------------
  // Properties of the fragments

  /** How far into a list the output stands: outside any list, right after
      an opening tag, or after at least one item. */
  datatype Nest = Closed | JustOpened(kind: ListKind) | Open(kind: ListKind)

  /** One fragment read against the nesting rules; `None` when it breaks
      them. */
  function Advance(n: Nest, f: Fragment): Option<Nest> {
    match f
    case ListOpen(kind) => if n == Closed then Some(JustOpened(kind)) else None
    case ListClose(kind) => if n == Open(kind) then Some(Closed) else None
    case ListItem(_) => if n == Closed then None else Some(Open(n.kind))
    case Heading(level, _) => if n == Closed && 1 <= level <= 3 then Some(Closed) else None
    case _ => if n == Closed then Some(Closed) else None
  }

  function AdvanceAll(n: Nest, fs: seq<Fragment>): Option<Nest>
    decreases |fs|
  {
    if fs == [] then Some(n)
    else
      match Advance(n, fs[0])
      case None => None
      case Some(m) => AdvanceAll(m, fs[1..])
  }

  /** Lists never nest; each list holds at least one item and is closed by
      the tag of its own kind; items appear only inside lists; headings,
      quotes, paragraphs and code blocks only outside them; headings have
      levels 1 to 3; and nothing is left open at the end. */
  predicate WellNested(fs: seq<Fragment>) {
    AdvanceAll(Closed, fs) == Some(Closed)
  }

  function NestOf(mode: Mode): Nest {
    if mode.InList? then Open(mode.kind) else Closed
  }

  lemma {:induction false} AdvanceAllAppend(n: Nest, a: seq<Fragment>, b: seq<Fragment>)
    requires AdvanceAll(n, a).Some?
    ensures AdvanceAll(n, a + b) == AdvanceAll(AdvanceAll(n, a).value, b)
    decreases |a|
  {
    if a == [] {
      assert a + b == b;
    } else {
      assert (a + b)[0] == a[0] && (a + b)[1..] == a[1..] + b;
      AdvanceAllAppend(Advance(n, a[0]).value, a[1..], b);
    }
  }

  lemma CloseListNests(mode: Mode)
    requires !mode.InCode?
    ensures AdvanceAll(NestOf(mode), CloseList(mode)) == Some(Closed)
  {
    if mode.InList? {
      assert AdvanceAll(Closed, []) == Some(Closed);
    }
  }

  /** After `closeList`, one block element outside any list. */
  lemma BlockAfterClose(mode: Mode, f: Fragment)
    requires !mode.InCode? && Advance(Closed, f) == Some(Closed)
    ensures AdvanceAll(NestOf(mode), CloseList(mode) + [f]) == Some(Closed)
  {
    CloseListNests(mode);
    AdvanceAllAppend(NestOf(mode), CloseList(mode), [f]);
    assert [f][1..] == [];
  }

  /** Every line moves the nesting from the state its mode stands for to the
      state the next mode stands for, without breaking the rules. */
  lemma StepNests(mode: Mode, line: string)
    ensures AdvanceAll(NestOf(mode), Step(mode, line).frags) == Some(NestOf(Step(mode, line).mode))
  {
    if IsFence(line) {
      if mode.InCode? {
        StepClosesFence(mode.language, mode.buffer, line);
        assert [CodeBlock(mode.language, mode.buffer)][1..] == [];
      } else {
        StepOpensFence(mode, line);
        CloseListNests(mode);
      }
    } else if mode.InCode? {
      StepBuffers(mode.language, mode.buffer, line);
    } else if IsBlank(line) {
      StepBlank(mode, line);
      CloseListNests(mode);
    } else {
      StepIsBlockStep(mode, line);
      HeadingLevelInRange(line);
      KindStepNests(mode, Classify(line), line);
    }
  }

  lemma KindStepNests(mode: Mode, k: LineKind, line: string)
    requires !mode.InCode? && (k.HeadingLine? ==> 1 <= k.level <= 3)
    ensures AdvanceAll(NestOf(mode), KindStep(mode, k, line).frags) == Some(NestOf(KindStep(mode, k, line).mode))
  {
    match k
    case HeadingLine(level, content) => BlockAfterClose(mode, Heading(level, content));
    case BulletLine(content) => ItemNests(mode, Unordered, content);
    case NumberedLine(content) => ItemNests(mode, Ordered, content);
    case QuoteLine(content) => BlockAfterClose(mode, Blockquote(content));
    case TextLine => BlockAfterClose(mode, Paragraph(line));
  }

  lemma ItemNests(mode: Mode, kind: ListKind, text: string)
    requires !mode.InCode?
    ensures AdvanceAll(NestOf(mode), AddItem(mode, kind, text).frags) == Some(Open(kind))
  {
    var item := [ListItem(text)];
    assert item[1..] == [];
    assert AdvanceAll(JustOpened(kind), item) == Some(Open(kind));
    assert AdvanceAll(Open(kind), item) == Some(Open(kind));
    if mode != InList(kind) {
      CloseListNests(mode);
      AdvanceAllAppend(NestOf(mode), CloseList(mode), [ListOpen(kind), ListItem(text)]);
      assert [ListOpen(kind), ListItem(text)][1..] == item;
      assert AdvanceAll(Closed, [ListOpen(kind), ListItem(text)]) == Some(Open(kind));
    }
  }

  /** The nesting invariant of the loop: the fragments written so far are
      well nested up to the list the mode says is open. */
  lemma {:induction false} RunNests(lines: seq<string>)
    ensures AdvanceAll(Closed, Run(lines).frags) == Some(NestOf(Run(lines).mode))
    decreases |lines|
  {
    if lines != [] {
      var init := lines[..|lines| - 1];
      var p := Run(init);
      RunNests(init);
      StepNests(p.mode, lines[|lines| - 1]);
      AdvanceAllAppend(Closed, p.frags, Step(p.mode, lines[|lines| - 1]).frags);
    }
  }

  /** Whatever the text, the output is well nested: every list that is
      opened is closed by its own tag, after at least one item. */
  lemma RenderWellNested(markdown: string)
    ensures WellNested(Render(markdown))
  {
    if markdown != [] {
      FinishWellNested(Split(markdown, '\n'));
    }
  }

  /** The loop followed by the final `closeList()` leaves no list open. */
  lemma FinishWellNested(lines: seq<string>)
    ensures WellNested(Finish(Run(lines)))
  {
    var p := Run(lines);
    RunNests(lines);
    AdvanceAllAppend(Closed, p.frags, CloseList(p.mode));
    if p.mode.InList? {
      assert AdvanceAll(Closed, []) == Some(Closed);
    }
  }

  lemma RunSnoc(lines: seq<string>, line: string)
    ensures Run(lines + [line])
         == Progress(Step(Run(lines).mode, line).mode, Run(lines).frags + Step(Run(lines).mode, line).frags)
  {
    assert (lines + [line])[..|lines|] == lines;
  }

  lemma StepOpensFence(mode: Mode, line: string)
    requires IsFence(line) && !mode.InCode?
    ensures Step(mode, line) == Progress(InCode(FenceLanguage(line), []), CloseList(mode))
  {
  }

  lemma StepBuffers(language: string, buffer: seq<string>, line: string)
    requires !IsFence(line)
    ensures Step(InCode(language, buffer), line) == Progress(InCode(language, buffer + [line]), [])
  {
  }

  lemma StepClosesFence(language: string, buffer: seq<string>, line: string)
    requires IsFence(line)
    ensures Step(InCode(language, buffer), line) == Progress(Idle, [CodeBlock(language, buffer)])
  {
  }

  lemma StepBlank(mode: Mode, line: string)
    requires !IsFence(line) && !mode.InCode? && IsBlank(line)
    ensures Step(mode, line) == Progress(Idle, CloseList(mode))
  {
  }

  lemma StepIsBlockStep(mode: Mode, line: string)
    requires !IsFence(line) && !mode.InCode? && !IsBlank(line)
    ensures Step(mode, line) == KindStep(mode, Classify(line), line)
  {
  }

  /** The last element of a non-empty list split off, after a prefix. */
  lemma SplitLast(pre: seq<string>, xs: seq<string>)
    requires xs != []
    ensures xs == xs[..|xs| - 1] + [xs[|xs| - 1]]
    ensures pre + xs == (pre + xs[..|xs| - 1]) + [xs[|xs| - 1]]
  {
    assert xs == xs[..|xs| - 1] + [xs[|xs| - 1]];
  }

  /** After an opening fence, every line up to the next fence is kept
      verbatim in the buffer and writes nothing. */
  lemma FenceBuffersLines(pre: seq<string>, fence: string, body: seq<string>)
    requires !Run(pre).mode.InCode? && IsFence(fence)
    requires forall i :: 0 <= i < |body| ==> !IsFence(body[i])
    ensures Run(pre + [fence] + body) == Progress(InCode(FenceLanguage(fence), body), Finish(Run(pre)))
  {
    RunSnoc(pre, fence);
    StepOpensFence(Run(pre).mode, fence);
    BodyBuffers(pre + [fence], FenceLanguage(fence), body);
  }

  /** Inside a code block, non-fence lines only grow the buffer. */
  lemma {:induction false} BodyBuffers(start: seq<string>, language: string, body: seq<string>)
    requires Run(start).mode == InCode(language, [])
    requires forall i :: 0 <= i < |body| ==> !IsFence(body[i])
    ensures Run(start + body) == Progress(InCode(language, body), Run(start).frags)
    decreases |body|
  {
    if body == [] {
      assert start + body == start;
    } else {
      var init := body[..|body| - 1];
      var last := body[|body| - 1];
      SplitLast(start, body);
      BodyBuffers(start, language, init);
      RunSnoc(start + init, last);
      StepBuffers(language, init, last);
    }
  }

  /** A code block that is never closed is not written: the fence and every
      line after it leave the output as it stood before the fence. */
  lemma UnterminatedFenceDropsRest(pre: seq<string>, fence: string, body: seq<string>)
    requires !Run(pre).mode.InCode? && IsFence(fence)
    requires forall i :: 0 <= i < |body| ==> !IsFence(body[i])
    ensures Finish(Run(pre + [fence] + body)) == Finish(Run(pre))
  {
    FenceBuffersLines(pre, fence, body);
  }

  /** A closed code block is written once, with the language of its opening
      fence and its lines exactly as they were. */
  lemma FencedBlockKept(pre: seq<string>, fence: string, body: seq<string>, closing: string)
    requires !Run(pre).mode.InCode? && IsFence(fence) && IsFence(closing)
    requires forall i :: 0 <= i < |body| ==> !IsFence(body[i])
    ensures Run(pre + [fence] + body + [closing])
         == Progress(Idle, Finish(Run(pre)) + [CodeBlock(FenceLanguage(fence), body)])
  {
    FenceBuffersLines(pre, fence, body);
    RunSnoc(pre + [fence] + body, closing);
    StepClosesFence(FenceLanguage(fence), body, closing);
  }

  /** A document that is one fenced code block renders as that block alone. */
  lemma CodeBlockDocument(fence: string, body: seq<string>, closing: string)
    requires IsFence(fence) && IsFence(closing)
    requires forall i :: 0 <= i < |body| ==> !IsFence(body[i])
    requires '\n' !in fence && '\n' !in closing && forall i :: 0 <= i < |body| ==> '\n' !in body[i]
    ensures Render(Join([fence] + body + [closing], "\n")) == [CodeBlock(FenceLanguage(fence), body)]
  {
    var lines := [fence] + body + [closing];
    NoNewlineLines(fence, body, closing);
    FenceNotEmpty(fence);
    RenderOfLines(lines);
    FencedBlockAlone(fence, body, closing);
  }

  lemma NoNewlineLines(fence: string, body: seq<string>, closing: string)
    requires '\n' !in fence && '\n' !in closing && forall i :: 0 <= i < |body| ==> '\n' !in body[i]
    ensures forall i :: 0 <= i < |[fence] + body + [closing]| ==> '\n' !in ([fence] + body + [closing])[i]
  {
    var lines := [fence] + body + [closing];
    forall i | 0 <= i < |lines| ensures '\n' !in lines[i] {
      if 0 < i < |lines| - 1 { assert lines[i] == body[i - 1]; }
    }
  }

  lemma FencedBlockAlone(fence: string, body: seq<string>, closing: string)
    requires IsFence(fence) && IsFence(closing)
    requires forall i :: 0 <= i < |body| ==> !IsFence(body[i])
    ensures Finish(Run([fence] + body + [closing])) == [CodeBlock(FenceLanguage(fence), body)]
  {
    NoPrefix(fence, body, closing);
    FencedBlockKept([], fence, body, closing);
    FinishFirstBlock(CodeBlock(FenceLanguage(fence), body));
  }

  /** A block written first, with nothing before it, is all the output. */
  lemma FinishFirstBlock(block: Fragment)
    ensures Finish(Progress(Idle, Finish(Run([])) + [block])) == [block]
  {
    assert Finish(Run([])) == [];
  }

  lemma NoPrefix(fence: string, body: seq<string>, closing: string)
    ensures [] + [fence] + body + [closing] == [fence] + body + [closing]
  {
  }

  lemma FenceNotEmpty(line: string)
    requires IsFence(line)
    ensures line != []
  {
    assert |Trim(line)| <= |line|;
  }

  /** The text of lines without newlines renders as the loop over those
      lines. */
  lemma RenderOfLines(lines: seq<string>)
    requires |lines| >= 1 && lines[0] != []
    requires forall i :: 0 <= i < |lines| ==> '\n' !in lines[i]
    ensures Render(Join(lines, "\n")) == Finish(Run(lines))
  {
    SplitJoin(lines, '\n');
    JoinStartsWithFirst(lines, "\n");
  }

  lemma JoinStartsWithFirst(parts: seq<string>, sep: string)
    requires |parts| >= 1
    ensures |Join(parts, sep)| >= |parts[0]|
  {
  }

  /** A line that the loop, outside a code block, reads as an item of a
      list of `kind`. */
  predicate IsItemLine(line: string, kind: ListKind) {
    !IsFence(line) && !IsBlank(line)
    && (if kind == Unordered then Classify(line).BulletLine? else Classify(line).NumberedLine?)
  }

  /** Every line of the run is an item of a list of `kind`. */
  predicate AllItems(lines: seq<string>, kind: ListKind)
    decreases |lines|
  {
    lines == [] || (AllItems(lines[..|lines| - 1], kind) && IsItemLine(lines[|lines| - 1], kind))
  }

  /** The item fragments for a run of item lines, in order. */
  function Items(lines: seq<string>, kind: ListKind): seq<Fragment>
    requires AllItems(lines, kind)
    decreases |lines|
  {
    if lines == [] then []
    else Items(lines[..|lines| - 1], kind) + [ListItem(Classify(lines[|lines| - 1]).content)]
  }

  /** What comes before the first item of a run: nothing when a list of the
      same kind is already open, otherwise the closing of any other list and
      a new opening tag. */
  function Opening(mode: Mode, kind: ListKind): seq<Fragment> {
    if mode == InList(kind) then [] else CloseList(mode) + [ListOpen(kind)]
  }

  /** Consecutive items of one kind share a single list: one opening tag (or
      none, if that list is already open), then every item in order, and no
      closing tag between them. */
  lemma {:induction false} ItemsShareOneList(pre: seq<string>, items: seq<string>, kind: ListKind)
    requires |items| >= 1 && !Run(pre).mode.InCode? && AllItems(items, kind)
    ensures Run(pre + items) == Progress(InList(kind), Run(pre).frags + Opening(Run(pre).mode, kind) + Items(items, kind))
    decreases |items|
  {
    var init := items[..|items| - 1];
    var last := items[|items| - 1];
    var item := [ListItem(Classify(last).content)];
    SplitLast(pre, items);
    var before := Run(pre + init);
    var start := Run(pre).frags + Opening(Run(pre).mode, kind);
    if init == [] {
      assert pre + init == pre;
    } else {
      ItemsShareOneList(pre, init, kind);
    }
    assert Run(pre + items) == Progress(InList(kind), before.frags + AddItem(before.mode, kind, Classify(last).content).frags) by {
      RunSnoc(pre + init, last);
      StepAddsItem(before.mode, last, kind);
    }
    AddItemOpens(before.mode, kind, Classify(last).content);
    if init == [] {
      assert Items(items, kind) == item;
      Associate(Run(pre).frags, Opening(Run(pre).mode, kind), item);
    } else {
      assert Items(items, kind) == Items(init, kind) + item;
      Associate(start, Items(init, kind), item);
    }
  }

  lemma AddItemOpens(mode: Mode, kind: ListKind, text: string)
    ensures AddItem(mode, kind, text).frags == Opening(mode, kind) + [ListItem(text)]
  {
  }

  lemma StepAddsItem(mode: Mode, line: string, kind: ListKind)
    requires !mode.InCode? && IsItemLine(line, kind)
    ensures Step(mode, line) == AddItem(mode, kind, Classify(line).content)
  {
    StepIsBlockStep(mode, line);
  }

  /** An open list ends at the first line, outside code, that is not an
      item of its kind: that line's output starts with the closing tag. */
  lemma ListEndsAtOtherLine(kind: ListKind, line: string)
    requires !IsItemLine(line, kind)
    ensures Step(InList(kind), line).mode != InList(kind)
    ensures Step(InList(kind), line).frags != [] && Step(InList(kind), line).frags[0] == ListClose(kind)
  {
    if !IsFence(line) && !IsBlank(line) {
      var other := if kind == Unordered then Ordered else Unordered;
      StepIsBlockStep(InList(kind), line);
      match Classify(line)
      case HeadingLine(_, _) =>
      case BulletLine(content) => assert kind == Ordered;
      case NumberedLine(content) => assert kind == Unordered;
      case QuoteLine(_) =>
      case TextLine =>
    }
  }

  // ---------------------------------------------------------------------
  // Lines as the patterns read them

  /** Four hashes are too many for a heading: the line is a paragraph. */
  lemma FourHashesIsText()
    ensures Classify("#### A") == TextLine
  {
    var line := "#### A";
    assert CountLeading(line, '#') == 4 by {
      assert line[4] == ' ';
      assert CountLeading(line[4..], '#') == 0;
    }
    assert line[1..] == "### A";
    assert !BulletShape(line) && !QuoteShape(line);
    assert DigitRun(line) == 0;
  }

  /** A hash and a space make an empty level-one heading. */
  lemma HashSpaceIsEmptyHeading()
    ensures Classify("# ") == HeadingLine(1, "")
  {
    var line := "# ";
    assert line[1..] == " ";
    assert CountLeading(line[1..], '#') == 0;
    assert CountLeading(line, '#') == 1;
    assert HeadingAt(line, 1);
    assert line[1..][1..] == "";
    assert RestOfLine(line, 1) == "";
  }

  /** A number needs the dot and then whitespace: `1.x` is text. */
  lemma DigitsWithoutSpaceAreText()
    ensures Classify("1.x") == TextLine
  {
    var a := "1.x";
    assert CountLeading(a, '#') == 0;
    assert a[1..] == ".x";
    assert DigitRun(a[1..]) == 0;
    assert DigitRun(a) == 1;
  }

  /** `12. x` is an ordered item whose capture is `x`. */
  lemma NumberedItemExample()
    ensures Classify("12. x") == NumberedLine("x")
  {
    var b := "12. x";
    assert CountLeading(b, '#') == 0;
    assert DigitRun(b) == 2 by {
      assert b[1..] == "2. x" && b[1..][1..] == ". x";
      assert DigitRun(b[1..][1..]) == 0;
    }
    assert NumberedAt(b, 2);
    assert RestOfLine(b, 3) == "x" by {
      assert b[3..] == " x";
      assert b[3..][1..] == "x";
      assert LeadingSpaces(b[3..]) == 1;
    }
  }

  // ---------------------------------------------------------------------
  // The markup

  const UlOpen := "<ul class=\"list-disc ml-6 space-y-2 my-4 text-gray-300\">\n"
  const OlOpen := "<ol class=\"list-decimal ml-6 space-y-2 my-4 text-gray-300\">\n"
  const H1Open := "<h1 class=\"text-3xl font-bold mt-8 mb-4 border-b border-gray-700 pb-2\">"
  const H2Open := "<h2 class=\"text-2xl font-semibold mt-6 mb-3 text-indigo-400\">"
  const H3Open := "<h3 class=\"text-xl font-medium mt-4 mb-2 text-gray-200\">"
  const QuoteOpen := "<blockquote class=\"border-l-4 border-indigo-500 pl-4 py-2 my-4 italic text-gray-400 bg-gray-800/30 rounded-r-lg\">"
  const ParagraphOpen := "<p class=\"my-4 leading-relaxed text-gray-300\">"
  const CodeHead := "<div class=\"relative my-6\">\n                    <div class=\"absolute top-0 right-0 bg-gray-700 text-gray-400 text-[10px] px-2 py-1 rounded-bl-md uppercase font-bold\">"
  const CodeBody := "</div>\n                    <pre class=\"bg-[#0d1117] p-4 rounded-xl overflow-x-auto border border-gray-800 shadow-inner\"><code class=\"text-blue-300 font-mono text-sm\">"
  const CodeTail := "</code></pre>\n                </div>\n"

  function ListOpenHtml(kind: ListKind): string {
    match kind
    case Unordered => UlOpen
    case Ordered => OlOpen
  }

  function ListCloseHtml(listType: string): string {
    "</" + listType + ">\n"
  }

  function ItemHtml(text: string): string {
    "  <li>" + ProcessInline(text) + "</li>\n"
  }

  /** Levels other than 1 to 3 write nothing, as the source's `if` chain
      does; `Classify` never produces them. */
  function HeadingHtml(level: nat, text: string): string {
    if level == 1 then H1Open + ProcessInline(text) + "</h1>\n"
    else if level == 2 then H2Open + ProcessInline(text) + "</h2>\n"
    else if level == 3 then H3Open + ProcessInline(text) + "</h3>\n"
    else ""
  }

  function QuoteHtml(text: string): string {
    QuoteOpen + ProcessInline(text) + "</blockquote>\n"
  }

  function ParagraphHtml(text: string): string {
    ParagraphOpen + ProcessInline(text) + "</p>\n"
  }

  /** The code block: the language label, then the lines joined back with
      newlines and escaped, without inline processing. */
  function CodeBlockHtml(language: string, lines: seq<string>): string {
    CodeHead + language + CodeBody + Escape(Join(lines, "\n")) + CodeTail
  }

  function FragmentHtml(f: Fragment): string {
    match f
    case ListOpen(kind) => ListOpenHtml(kind)
    case ListClose(kind) => ListCloseHtml(ListTag(kind))
    case ListItem(text) => ItemHtml(text)
    case Heading(level, text) => HeadingHtml(level, text)
    case Blockquote(text) => QuoteHtml(text)
    case Paragraph(text) => ParagraphHtml(text)
    case CodeBlock(language, lines) => CodeBlockHtml(language, lines)
  }

  function Html(fs: seq<Fragment>): string
    decreases |fs|
  {
    if fs == [] then "" else FragmentHtml(fs[0]) + Html(fs[1..])
  }

  lemma {:induction false} HtmlAppend(a: seq<Fragment>, b: seq<Fragment>)
    ensures Html(a + b) == Html(a) + Html(b)
    decreases |a|
  {
    if a == [] {
      assert a + b == b;
    } else {
      var head := FragmentHtml(a[0]);
      assert Html(a + b) == head + Html(a[1..] + b) by {
        assert (a + b)[0] == a[0] && (a + b)[1..] == a[1..] + b;
      }
      HtmlAppend(a[1..], b);
      Associate(head, Html(a[1..]), Html(b));
    }
  }

  lemma HtmlOne(f: Fragment)
    ensures Html([f]) == FragmentHtml(f)
  {
    assert [f][1..] == [];
  }

  lemma HtmlTwo(f: Fragment, g: Fragment)
    ensures Html([f, g]) == FragmentHtml(f) + FragmentHtml(g)
  {
    assert [f, g][1..] == [g];
    HtmlOne(g);
  }

  lemma HtmlAfterClose(mode: Mode, f: Fragment)
    ensures Html(CloseList(mode) + [f]) == Html(CloseList(mode)) + FragmentHtml(f)
  {
    HtmlAppend(CloseList(mode), [f]);
    HtmlOne(f);
  }

  lemma EmptyPrefix(x: string)
    ensures "" + x == x
  {
  }

  // ---------------------------------------------------------------------
  // The source's loop

  /** The mode the source's variables stand for. */
  function ModeOf(inCodeBlock: bool, codeLanguage: string, codeBuffer: seq<string>,
                  inList: bool, listType: string): Mode
  {
    if inCodeBlock then InCode(codeLanguage, codeBuffer)
    else if inList then InList(if listType == "ul" then Unordered else Ordered)
    else Idle
  }

  /** `closeList`: writes the closing tag of the open list, if any, and
      leaves no list open. */
  method CloseOpenList(html: string, inList: bool, listType: string) returns (out: string, open: bool)
    requires inList ==> listType == "ul" || listType == "ol"
    ensures !open
    ensures out == html + Html(CloseList(ModeOf(false, "", [], inList, listType)))
  {
    out := html;
    if inList {
      out := out + ListCloseHtml(listType);
    }
    open := false;
  }

  /** One more line is one more `Step`. */
  lemma RunExtend(lines: seq<string>, i: nat)
    requires i < |lines|
    ensures Run(lines[..i + 1])
         == Progress(Step(Run(lines[..i]).mode, lines[i]).mode,
                     Run(lines[..i]).frags + Step(Run(lines[..i]).mode, lines[i]).frags)
  {
    assert lines[..i + 1][..i] == lines[..i];
  }

  /** One pass of the source's loop body: the new values of its state
      variables and the markup the line appends to `html`. */
  method HandleLine(line: string, inCodeBlock: bool, codeLanguage: string, codeBuffer: seq<string>,
                    inList: bool, listType: string)
    returns (out: string, nowInCode: bool, language: string, buffer: seq<string>,
             nowInList: bool, nowListType: string)
    requires !(inCodeBlock && inList)
    requires inList ==> listType == "ul" || listType == "ol"
    ensures !(nowInCode && nowInList)
    ensures nowInList ==> nowListType == "ul" || nowListType == "ol"
    ensures Step(ModeOf(inCodeBlock, codeLanguage, codeBuffer, inList, listType), line).mode
         == ModeOf(nowInCode, language, buffer, nowInList, nowListType)
    ensures out == Html(Step(ModeOf(inCodeBlock, codeLanguage, codeBuffer, inList, listType), line).frags)
  {
    ghost var mode := ModeOf(inCodeBlock, codeLanguage, codeBuffer, inList, listType);
    out, nowInCode, language, buffer, nowInList, nowListType := "", inCodeBlock, codeLanguage, codeBuffer, inList, listType;
    var trimmed := Trim(line);
    if StartsWith(trimmed, "```") {
      if !inCodeBlock {
        out, nowInList := CloseOpenList(out, inList, listType);
        nowInCode := true;
        language := if trimmed[3..] == "" then "text" else trimmed[3..];
        buffer := [];
        StepOpensFence(mode, line);
      } else {
        nowInCode := false;
        out := CodeBlockHtml(codeLanguage, codeBuffer);
        HtmlOne(CodeBlock(codeLanguage, codeBuffer));
        StepClosesFence(codeLanguage, codeBuffer, line);
      }
    } else if inCodeBlock {
      buffer := codeBuffer + [line];
      StepBuffers(codeLanguage, codeBuffer, line);
    } else if trimmed == "" {
      out, nowInList := CloseOpenList(out, inList, listType);
      StepBlank(mode, line);
    } else {
      StepIsBlockStep(mode, line);
      var kind := Classify(line);
      out, nowInList, nowListType := HandleKind(kind, line, inList, listType);
    }
  }

  /** The part of the loop body after the fence, code and blank-line
      checks: the four patterns in turn, once the line is classified. */
  method HandleKind(k: LineKind, line: string, inList: bool, listType: string)
    returns (out: string, nowInList: bool, nowListType: string)
    requires inList ==> listType == "ul" || listType == "ol"
    ensures nowInList ==> nowListType == "ul" || nowListType == "ol"
    ensures KindStep(ModeOf(false, "", [], inList, listType), k, line).mode
         == ModeOf(false, "", [], nowInList, nowListType)
    ensures out == Html(KindStep(ModeOf(false, "", [], inList, listType), k, line).frags)
  {
    nowListType := listType;
    match k
    case HeadingLine(level, content) =>
      out, nowInList := WriteBlock(inList, listType, Heading(level, content));
    case BulletLine(content) =>
      out, nowInList, nowListType := WriteItem(inList, listType, Unordered, content);
    case NumberedLine(content) =>
      out, nowInList, nowListType := WriteItem(inList, listType, Ordered, content);
    case QuoteLine(content) =>
      out, nowInList := WriteBlock(inList, listType, Blockquote(content));
    case TextLine =>
      out, nowInList := WriteBlock(inList, listType, Paragraph(line));
  }

  /** A heading, quote or paragraph: `closeList()`, then the element. */
  method WriteBlock(inList: bool, listType: string, f: Fragment) returns (out: string, nowInList: bool)
    requires inList ==> listType == "ul" || listType == "ol"
    ensures !nowInList
    ensures out == Html(CloseList(ModeOf(false, "", [], inList, listType)) + [f])
  {
    ghost var mode := ModeOf(false, "", [], inList, listType);
    out, nowInList := CloseOpenList("", inList, listType);
    EmptyPrefix(Html(CloseList(mode)));
    out := out + FragmentHtml(f);
    HtmlAfterClose(mode, f);
  }

  /** A list item: when no list of its kind is open, `closeList()` and the
      opening tag first; then the item. */
  method WriteItem(inList: bool, listType: string, kind: ListKind, content: string)
    returns (out: string, nowInList: bool, nowListType: string)
    requires inList ==> listType == "ul" || listType == "ol"
    ensures nowInList && nowListType == ListTag(kind)
    ensures AddItem(ModeOf(false, "", [], inList, listType), kind, content).mode
         == ModeOf(false, "", [], nowInList, nowListType)
    ensures out == Html(AddItem(ModeOf(false, "", [], inList, listType), kind, content).frags)
  {
    ghost var mode := ModeOf(false, "", [], inList, listType);
    var tag := ListTag(kind);
    out, nowInList, nowListType := "", inList, listType;
    if !inList || listType != tag {
      out, nowInList := CloseOpenList("", inList, listType);
      EmptyPrefix(Html(CloseList(mode)));
      out := out + ListOpenHtml(kind);
      nowInList := true;
      nowListType := tag;
      HtmlAppend(CloseList(mode), [ListOpen(kind), ListItem(content)]);
      HtmlTwo(ListOpen(kind), ListItem(content));
      Associate(Html(CloseList(mode)), ListOpenHtml(kind), ItemHtml(content));
      out := out + ItemHtml(content);
    } else {
      HtmlOne(ListItem(content));
      out := ItemHtml(content);
    }
  }

  method MarkdownToHtml(markdown: string) returns (html: string)
    ensures html == Html(Render(markdown))
  {
    html := "";
    if markdown == [] {
      return;
    }
    var lines := Split(markdown, '\n');
    var inCodeBlock, codeLanguage, codeBuffer, inList, listType;
    html, inCodeBlock, codeLanguage, codeBuffer, inList, listType := ReadLines(lines);
    ghost var p := Run(lines);
    html, inList := CloseOpenList(html, inList, listType);
    HtmlAppend(p.frags, CloseList(p.mode));
  }

  /** The `for` loop over the lines: the markup of `Run(lines)` and the state
      variables standing for the mode it reaches. */
  method ReadLines(lines: seq<string>)
    returns (html: string, inCodeBlock: bool, codeLanguage: string, codeBuffer: seq<string>,
             inList: bool, listType: string)
    ensures !(inCodeBlock && inList) && (inList ==> listType == "ul" || listType == "ol")
    ensures Run(lines).mode == ModeOf(inCodeBlock, codeLanguage, codeBuffer, inList, listType)
    ensures html == Html(Run(lines).frags)
  {
    html := "";
    inCodeBlock := false;
    codeLanguage := "";
    codeBuffer := [];
    inList := false;
    listType := "";
    var i := 0;
    while i < |lines|
      invariant 0 <= i <= |lines|
      invariant !(inCodeBlock && inList)
      invariant inList ==> listType == "ul" || listType == "ol"
      invariant Run(lines[..i]).mode == ModeOf(inCodeBlock, codeLanguage, codeBuffer, inList, listType)
      invariant html == Html(Run(lines[..i]).frags)
    {
      ghost var before := Run(lines[..i]);
      ghost var step := Step(before.mode, lines[i]);
      var out;
      out, inCodeBlock, codeLanguage, codeBuffer, inList, listType :=
        HandleLine(lines[i], inCodeBlock, codeLanguage, codeBuffer, inList, listType);
      HtmlAppend(before.frags, step.frags);
      html := html + out;
      RunExtend(lines, i);
      i := i + 1;
    }
    assert lines[..i] == lines;
  }
}
