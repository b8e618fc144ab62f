/**
 The documentation preview panel: its own markdown-to-HTML renderer (the
 same rewrite patterns as the exporter, Tailwind-styled tags, no list or
 paragraph unwrapping, and the whole output inside one paragraph), the
 empty state, the statistics card and the copy, download and share
 actions. The clipboard, the download anchor and `navigator.share` are
 outside the model; an action is modelled by what it hands to them.
 */
module DocumentationPreview {
  import opened Text
  import opened MarkdownRules
  import ExportService
  import opened PreviewTags

  // ---------------------------------------------------------------------
  // The renderer
  // ---------------------------------------------------------------------

  /** Rules 4-6: bold, italic, inline code. */
  function Marks(h: string): string {
    Pairs(Pairs(Pairs(h, "**", StrongOpen, "</strong>"), "*", EmOpen, "</em>"), "`", CodeOpen, "</code>")
  }

  /** Rules 1-6: headings, then the inline marks. */
  function Inline(md: string): string {
    Marks(ApplyHeadings(md, Tags))
  }

  /** Rules 7-8: bullet items, then numbered items. */
  function ListRules(i: string): string {
    ApplyLines(ApplyLines(i, Bullet), NumberedItem)
  }

  /** Rules 7-9: list items, then blank-line pairs become paragraph breaks. */
  function Blocks(i: string): string {
    ReplaceAll(ListRules(i), "\n\n", ParagraphBreak)
  }

  /** Rules 1-8: every rewrite that acts within a single line. */
  function LineRules(md: string): string {
    ListRules(Inline(md))
  }

  /** Rules 4-6 and 7-8 as chains of line-local stages. */
  const MarkStages: seq<Stage> := [Pair("**", StrongOpen, "</strong>"), Pair("*", EmOpen, "</em>"), Pair("`", CodeOpen, "</code>")]
  const ListStages: seq<Stage> := [Rule(Bullet), Rule(NumberedItem)]

  function BeforeFence(md: string): string {
    Blocks(Inline(md))
  }

  /** `renderMarkdownAsHTML`. */
  function RenderMarkdownAsHtml(md: string): string {
    WrapperOpen + Fence(BeforeFence(md), PreOpen, "</code></pre>") + WrapperClose
  }

  /** The rendered preview is the wrapper around the rewritten text, and
      the rewritten text can be read back from it. */
  lemma RenderFramed(md: string)
    ensures Unframe(RenderMarkdownAsHtml(md), WrapperOpen, WrapperClose).Some?
    ensures Unframe(RenderMarkdownAsHtml(md), WrapperOpen, WrapperClose).value
            == Fence(BeforeFence(md), PreOpen, "</code></pre>")
  {
    UnframeFrame(WrapperOpen, Fence(BeforeFence(md), PreOpen, "</code></pre>"), WrapperClose);
  }

  /** Inline-code pairing leaves no two adjacent backticks. */
  lemma InlineNoDouble(md: string)
    ensures NoDoubleTick(Inline(md))
  {
    var e := Pairs(Pairs(ApplyHeadings(md, Tags), "**", StrongOpen, "</strong>"), "*", EmOpen, "</em>");
    CodeTagsLackTick();
    CodePairsNoDouble(e, CodeOpen, "</code>");
  }

  /** Rules 7-9 insert only tags without backticks. */
  lemma BlocksNoDouble(i: string)
    requires NoDoubleTick(i)
    ensures NoDoubleTick(Blocks(i))
  {
    BulletOpenPlain();
    ItemOpenPlain();
    ApplyLinesNoDouble(i, Bullet);
    ApplyLinesNoDouble(ApplyLines(i, Bullet), NumberedItem);
    ParagraphBreakPlain();
    ReplaceAllNoDouble(ApplyLines(ApplyLines(i, Bullet), NumberedItem), "\n\n", ParagraphBreak);
  }

  /** As in the exporter, the fence rule (rule 10) never fires: inline-code
      pairing has already used up every pair of backticks on a line. */
  lemma RenderFenceNeverFires(md: string)
    ensures RenderMarkdownAsHtml(md) == WrapperOpen + BeforeFence(md) + WrapperClose
  {
    InlineNoDouble(md);
    BlocksNoDouble(Inline(md));
    FenceIdle(BeforeFence(md), PreOpen, "</code></pre>");
  }

  // ---------------------------------------------------------------------
  // Rules 1-8 line by line
  // ---------------------------------------------------------------------

  lemma MarkStagesLocal()
    ensures LineLocal(MarkStages[0]) && LineLocal(MarkStages[1]) && LineLocal(MarkStages[2])
  {
    StrongOpenPlain();
    EmOpenPlain();
    CodeOpenPlain();
    assert OneLine("</strong>") && OneLine("</em>") && OneLine("</code>");
    assert OneLine("**") && OneLine("*") && OneLine("`");
  }

  lemma ListStagesLocal()
    ensures LineLocal(ListStages[0]) && LineLocal(ListStages[1])
  {
    BulletOpenPlain();
    ItemOpenPlain();
    assert OneLine("</li>");
  }

  /** Rules 1-8 as one chain of line-local stages. */
  lemma LineStagesRun(s: string)
    ensures AllLineLocal(HeadingStages(Tags) + MarkStages + ListStages)
    ensures Run(HeadingStages(Tags) + MarkStages + ListStages, s) == LineRules(s)
  {
    TagsValid();
    HeadingStagesRun(Tags, s);
    var h := ApplyHeadings(s, Tags);
    MarkStagesLocal();
    RunThree(MarkStages[0], MarkStages[1], MarkStages[2], h);
    ListStagesLocal();
    RunTwo(ListStages[0], ListStages[1], Marks(h));
    RunAppend(HeadingStages(Tags), MarkStages, s);
    RunAppend(HeadingStages(Tags) + MarkStages, ListStages, s);
  }

  /** Rules 1-8 act on each line of the document on its own: the text
      they hand to rule 9 has the document's lines, each converted as if
      it stood alone, and the document's terminators. */
  lemma LineRulesByLines(md: string)
    ensures |Lines(LineRules(md))| == |Lines(md)|
    ensures forall i :: 0 <= i < |Lines(md)| ==> Lines(LineRules(md))[i] == LineRules(Lines(md)[i])
    ensures Terminators(LineRules(md)) == Terminators(md)
  {
    LineStagesRun(md);
    DocumentByLines(HeadingStages(Tags) + MarkStages + ListStages, md);
    forall i | 0 <= i < |Lines(md)|
      ensures Lines(LineRules(md))[i] == LineRules(Lines(md)[i])
    {
      LineStagesRun(Lines(md)[i]);
    }
  }

  /** Each line put through rules 1-8 on its own. */
  function PreviewLines(ls: seq<string>): (r: seq<string>)
    ensures |r| == |ls|
    ensures forall i :: 0 <= i < |ls| ==> r[i] == LineRules(ls[i])
  {
    seq(|ls|, i requires 0 <= i < |ls| => LineRules(ls[i]))
  }

  /** The whole preview, with rules 1-8 done line by line: rule 9 sees the
      converted lines joined by the document's own terminators, and its
      output goes inside the wrapper. */
  lemma RenderByLines(md: string)
    ensures RenderMarkdownAsHtml(md)
            == WrapperOpen + ReplaceAll(Unlines(PreviewLines(Lines(md)), Terminators(md)), "\n\n", ParagraphBreak) + WrapperClose
  {
    RenderFenceNeverFires(md);
    LineRulesByLines(md);
    LinesRoundTrip(LineRules(md));
    assert Lines(LineRules(md)) == PreviewLines(Lines(md));
  }

  /** Whatever rules 1-8 make of a line on its own, they make of that
      line wherever it stands in a document. */
  lemma LineInDocument(md: string, i: nat, h: string)
    requires i < |Lines(md)| && LineRules(Lines(md)[i]) == h
    ensures i < |Lines(LineRules(md))| && Lines(LineRules(md))[i] == h
  {
    LineRulesByLines(md);
  }

  /** Line `i` of any document, a `#`, `##` or `###` heading of plain
      text, reaches rule 9 as that level's styled heading. */
  lemma HeadingInDocument(md: string, i: nat, n: nat, t: string)
    requires i < |Lines(md)| && 1 <= n <= 3 && PlainLine(t) && Lines(md)[i] == HeadingMarker(n) + t
    ensures i < |Lines(LineRules(md))| && Lines(LineRules(md))[i] == Tags.Open(n) + t + HeadingClose(n)
  {
    HeadingLineRules(n, t);
    LineInDocument(md, i, Tags.Open(n) + t + HeadingClose(n));
  }

  /** Line `i` of any document, `- ` and plain text, reaches rule 9 as a
      bulleted list item. */
  lemma BulletInDocument(md: string, i: nat, t: string)
    requires i < |Lines(md)| && PlainLine(t) && Lines(md)[i] == "- " + t
    ensures i < |Lines(LineRules(md))| && Lines(LineRules(md))[i] == BulletOpen + t + "</li>"
  {
    BulletLineRules(t);
    LineInDocument(md, i, BulletOpen + t + "</li>");
  }

  /** Line `i` of any document, a digit run, `. ` and plain text, reaches
      rule 9 as a list item without a bullet, the number dropped. */
  lemma NumberedInDocument(md: string, i: nat, d: string, t: string)
    requires i < |Lines(md)| && |d| > 0 && (forall k :: 0 <= k < |d| ==> IsDigit(d[k]))
    requires PlainLine(t) && Lines(md)[i] == d + ". " + t
    ensures i < |Lines(LineRules(md))| && Lines(LineRules(md))[i] == ItemOpen + t + "</li>"
  {
    NumberedLineRules(d, t);
    LineInDocument(md, i, ItemOpen + t + "</li>");
  }

  lemma HeadingLineRules(n: nat, t: string)
    requires 1 <= n <= 3 && PlainLine(t)
    ensures LineRules(HeadingMarker(n) + t) == Tags.Open(n) + t + HeadingClose(n)
  {
    TagsValid();
    HeadingLine(n, t, Tags);
    var h := Tags.Open(n) + t + HeadingClose(n);
    StyledHeadingPlain(n, t);
    MarksInert(h);
    TaggedLineInert(h);
  }

  lemma BulletLineRules(t: string)
    requires PlainLine(t)
    ensures LineRules("- " + t) == BulletOpen + t + "</li>"
  {
    var h := BulletOpen + t + "</li>";
    BulletRewrite(t);
    BulletPlain(t);
    TaggedLineInert(h);
  }

  lemma NumberedLineRules(d: string, t: string)
    requires |d| > 0 && forall i :: 0 <= i < |d| ==> IsDigit(d[i])
    requires PlainLine(t)
    ensures LineRules(d + ". " + t) == ItemOpen + t + "</li>"
  {
    var s := d + ". " + t;
    NumberedPlain(d, t);
    NotPrefixedLine(s, HeadingRule(Tags, 1));
    NotPrefixedLine(s, HeadingRule(Tags, 2));
    NotPrefixedLine(s, HeadingRule(Tags, 3));
    MarksInert(s);
    NotPrefixedLine(s, Bullet);
    NumberedRewrite(d, t);
  }

  /** Empty markdown renders as the bare wrapper. */
  lemma RenderEmpty()
    ensures RenderMarkdownAsHtml("") == WrapperOpen + WrapperClose
  {
    assert ApplyHeadings("", Tags) == "";
    assert Inline("") == "";
    assert BeforeFence("") == "";
  }

  /** Rules 4-6 leave alone text with no marker characters. */
  lemma MarksInert(h: string)
    requires PlainLine(h)
    ensures Marks(h) == h
  {
    PairsAbsent(h, "**", StrongOpen, "</strong>");
    PairsAbsent(h, "*", EmOpen, "</em>");
    PairsAbsent(h, "`", CodeOpen, "</code>");
  }

  /** Rules 7-10 leave alone a line that starts with a tag. */
  lemma TaggedLineInert(h: string)
    requires PlainLine(h) && |h| > 0 && h[0] == '<'
    ensures ApplyLines(h, Bullet) == h && ApplyLines(h, NumberedItem) == h
    ensures ReplaceAll(h, "\n\n", ParagraphBreak) == h
    ensures Blocks(h) == h
    ensures Fence(h, PreOpen, "</code></pre>") == h
  {
    NotPrefixedLine(h, Bullet);
    ApplyLinesSingle(h, NumberedItem);
    NoNumberMarker(h);
    ReplaceAllAbsent(h, "\n\n", ParagraphBreak);
    LacksNoDouble(h);
    FenceIdle(h, PreOpen, "</code></pre>");
  }

  /** A `#`, `##` or `###` line of plain text is rendered as that level's
      styled heading, inside the wrapper. */
  lemma RenderHeading(n: nat, t: string)
    requires 1 <= n <= 3 && PlainLine(t)
    ensures RenderMarkdownAsHtml(HeadingMarker(n) + t)
            == WrapperOpen + (Tags.Open(n) + t + HeadingClose(n)) + WrapperClose
  {
    TagsValid();
    HeadingLine(n, t, Tags);
    var h := Tags.Open(n) + t + HeadingClose(n);
    StyledHeadingPlain(n, t);
    MarksInert(h);
    TaggedLineInert(h);
    RenderOfLine(HeadingMarker(n) + t, h);
  }

  lemma StyledHeadingPlain(n: nat, t: string)
    requires 1 <= n <= 3 && PlainLine(t)
    ensures PlainLine(Tags.Open(n) + t + HeadingClose(n))
    ensures (Tags.Open(n) + t + HeadingClose(n))[0] == '<'
  {
    var o := Tags.Open(n);
    assert PlainLine(o) && o[0] == '<' by { TagsValid(); H1Plain(); H2Plain(); H3Plain(); }
    PlainConcat(o, t);
    PlainByMembership(HeadingClose(n));
    PlainConcat(o + t, HeadingClose(n));
  }

  lemma RenderOfLine(md: string, h: string)
    requires Blocks(Marks(ApplyHeadings(md, Tags))) == h
    requires Fence(h, PreOpen, "</code></pre>") == h
    ensures RenderMarkdownAsHtml(md) == WrapperOpen + h + WrapperClose
  {
  }

  /** A `- ` line of plain text is rendered as a bulleted list item. */
  lemma RenderBullet(t: string)
    requires PlainLine(t)
    ensures RenderMarkdownAsHtml("- " + t) == WrapperOpen + (BulletOpen + t + "</li>") + WrapperClose
  {
    var s := "- " + t;
    var h := BulletOpen + t + "</li>";
    BulletRewrite(t);
    BulletPlain(t);
    TaggedLineInert(h);
    RenderOfLine(s, h);
  }

  lemma BulletRewrite(t: string)
    requires PlainLine(t)
    ensures ApplyHeadings("- " + t, Tags) == "- " + t
    ensures Inline("- " + t) == "- " + t
    ensures ApplyLines("- " + t, Bullet) == BulletOpen + t + "</li>"
  {
    var s := "- " + t;
    assert PlainLine(s);
    NotPrefixedLine(s, HeadingRule(Tags, 1));
    NotPrefixedLine(s, HeadingRule(Tags, 2));
    NotPrefixedLine(s, HeadingRule(Tags, 3));
    MarksInert(s);
    ApplyLinesSingle(s, Bullet);
  }

  lemma BulletPlain(t: string)
    requires PlainLine(t)
    ensures PlainLine(BulletOpen + t + "</li>") && (BulletOpen + t + "</li>")[0] == '<'
  {
    BulletOpenPlain();
    PlainConcat(BulletOpen, t);
    PlainByMembership("</li>");
    PlainConcat(BulletOpen + t, "</li>");
    assert BulletOpen[0] == '<';
  }

  /** An `n. ` line of plain text is rendered as a list item without a
      bullet, the number dropped. */
  lemma RenderNumbered(d: string, t: string)
    requires |d| > 0 && forall i :: 0 <= i < |d| ==> IsDigit(d[i])
    requires PlainLine(t)
    ensures RenderMarkdownAsHtml(d + ". " + t) == WrapperOpen + (ItemOpen + t + "</li>") + WrapperClose
  {
    var s := d + ". " + t;
    var h := ItemOpen + t + "</li>";
    NumberedPlain(d, t);
    NotPrefixedLine(s, HeadingRule(Tags, 1));
    NotPrefixedLine(s, HeadingRule(Tags, 2));
    NotPrefixedLine(s, HeadingRule(Tags, 3));
    MarksInert(s);
    NotPrefixedLine(s, Bullet);
    NumberedRewrite(d, t);
    ItemPlain(t);
    TaggedLineInert(h);
    RenderOfLine(s, h);
  }

  lemma NumberedPlain(d: string, t: string)
    requires |d| > 0 && forall i :: 0 <= i < |d| ==> IsDigit(d[i])
    requires PlainLine(t)
    ensures PlainLine(d + ". " + t) && (d + ". " + t)[0] == d[0]
    ensures (d + ". " + t)[0] != '#' && (d + ". " + t)[0] != '-'
  {
    var s := d + ". " + t;
    forall i | 0 <= i < |s|
      ensures !IsTerminator(s[i]) && s[i] != '*' && s[i] != '`'
    {
      if i >= |d| + 2 {
        assert s[i] == t[i - |d| - 2];
      }
    }
  }

  lemma NumberedRewrite(d: string, t: string)
    requires |d| > 0 && forall i :: 0 <= i < |d| ==> IsDigit(d[i])
    requires PlainLine(t)
    ensures ApplyLines(d + ". " + t, NumberedItem) == ItemOpen + t + "</li>"
  {
    var s := d + ". " + t;
    NumberedPlain(d, t);
    ApplyLinesSingle(s, NumberedItem);
    var n := DigitRun(s);
    assert !IsDigit(s[|d|]);
    assert forall k :: 0 <= k < |d| ==> IsDigit(s[k]);
    assert n == |d|;
    assert s[n..][..2] == ". ";
    assert s[|d| + 2..] == t;
  }

  lemma ItemPlain(t: string)
    requires PlainLine(t)
    ensures PlainLine(ItemOpen + t + "</li>") && (ItemOpen + t + "</li>")[0] == '<'
  {
    ItemOpenPlain();
    PlainConcat(ItemOpen, t);
    PlainByMembership("</li>");
    PlainConcat(ItemOpen + t, "</li>");
    assert ItemOpen[0] == '<';
  }

  // ---------------------------------------------------------------------
  // The panel
  // ---------------------------------------------------------------------

  datatype PreviewMode = Rendered | Markdown

  /** The statistics card. `codeBlocks` is a JavaScript number: half the
      number of "```" separators, so an odd count shows a half. */
  datatype Stats = Stats(words: nat, lines: nat, characters: nat, codeBlocks: real)

  function Statistics(docs: string): (st: Stats)
    ensures st.words == multiset(docs)[' '] + 1
    ensures st.lines == multiset(docs)['\n'] + 1
    ensures |docs| <= st.characters <= 2 * |docs|
    ensures st.characters == |docs| <==> forall i :: 0 <= i < |docs| ==> docs[i] as int <= 0xFFFF
    ensures 2.0 * st.codeBlocks == Count(docs, "```") as real
  {
    SplitLength(docs, " ");
    CountChar(docs, ' ');
    SplitLength(docs, "\n");
    CountChar(docs, '\n');
    SplitLength(docs, "```");
    Utf16LengthBmp(docs);
    Stats(|Split(docs, " ")|, |Split(docs, "\n")|, Utf16Length(docs),
          (|Split(docs, "```")| - 1) as real / 2.0)
  }

  /** What the panel shows. */
  datatype Panel =
    | NoDocumentation
    | Shown(badge: string, mode: PreviewMode, body: string, stats: Stats)

  function View(docs: string, outputFormat: string, mode: PreviewMode): (v: Panel)
    ensures v.NoDocumentation? <==> |docs| == 0
    ensures v.Shown? ==> v.stats == Statistics(docs) && v.mode == mode
    ensures v.Shown? && |outputFormat| > 0 ==> v.badge == outputFormat
    ensures v.Shown? && |outputFormat| == 0 ==> v.badge == "Markdown"
    ensures v.Shown? && mode == Markdown ==> v.body == docs
    ensures v.Shown? && mode == Rendered ==>
      Unframe(v.body, WrapperOpen, WrapperClose) == Some(BeforeFence(docs))
  {
    if |docs| == 0 then NoDocumentation
    else
      RenderFramed(docs);
      RenderFenceNeverFires(docs);
      Shown(if |outputFormat| > 0 then outputFormat else "Markdown", mode,
            if mode == Rendered then RenderMarkdownAsHtml(docs) else docs,
            Statistics(docs))
  }

  /** The copy button puts the markdown itself on the clipboard. */
  function CopyToClipboard(docs: string): (clip: string)
    ensures clip == docs
  {
    docs
  }

  /** The download button saves the markdown as `README.md`. */
  function Download(docs: string): (f: ExportService.ExportedFile)
    ensures f.name == "README.md" && f.mimeType == "text/markdown" && f.body == docs
  {
    ExportService.ExportedFile("README.md", "text/markdown", docs)
  }

  datatype ShareOutcome =
    | NativeShare(title: string, text: string, url: string)
    | UrlCopied(url: string)

  /** Share through the browser when it can, otherwise copy the page
      address; either way the shared address is the page's. */
  function Share(canShare: bool, pageUrl: string): (o: ShareOutcome)
    ensures o.NativeShare? <==> canShare
    ensures o.url == pageUrl
    ensures o.NativeShare? ==>
      o.title == "Generated Documentation" && o.text == "Check out this auto-generated documentation!"
  {
    if canShare then NativeShare("Generated Documentation", "Check out this auto-generated documentation!", pageUrl)
    else UrlCopied(pageUrl)
  }

  /** The code-block figure is a whole number exactly when the "```"
      separators come in pairs. */
  lemma CodeBlocksWhole(docs: string)
    ensures (Statistics(docs).codeBlocks == (Count(docs, "```") / 2) as real) <==> Count(docs, "```") % 2 == 0
  {
    var c := Count(docs, "```");
    var st := Statistics(docs);
    if c % 2 == 0 {
      assert c == 2 * (c / 2);
    } else {
      assert c == 2 * (c / 2) + 1;
    }
  }

  /** Without carriage returns or Unicode line separators, the line figure
      equals the number of lines the renderer's line rules see. */
  lemma LineStatMatchesLines(docs: string)
    requires forall i :: 0 <= i < |docs| && IsTerminator(docs[i]) ==> docs[i] == '\n'
    ensures Statistics(docs).lines == |Lines(docs)|
  {
    TerminatorsCount(docs);
  }

  lemma {:induction false} TerminatorsCount(s: string)
    requires forall i :: 0 <= i < |s| && IsTerminator(s[i]) ==> s[i] == '\n'
    ensures |Terminators(s)| == multiset(s)['\n']
    decreases |s|
  {
    if |s| > 0 {
      var r := s[1..];
      assert forall i :: 0 <= i < |r| ==> r[i] == s[i + 1];
      TerminatorsCount(r);
      assert s == [s[0]] + r;
      assert multiset(s) == multiset([s[0]]) + multiset(r);
    }
  }
}
