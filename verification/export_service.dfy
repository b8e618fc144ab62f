/**
 The exporter's markdown-to-HTML conversion (`convertMarkdownToHTML`) as
 the ordered chain of eighteen rewrites it is, and the two documents that
 embed its output: the standalone HTML download and the print-ready
 document handed to the browser's print dialog. The date printed in the
 header is a parameter (the browser's locale formatting is outside the
 model).
 */
module ExportService {
  import opened Text
  import opened MarkdownRules

  // ---------------------------------------------------------------------
  // The rewrite chain
  // ---------------------------------------------------------------------

  const Tags := HeadingTags("<h1>", "<h2>", "<h3>")
  const Bullet: LineRule := Prefixed("- ", "<li>", "</li>")
  const NumberedItem: LineRule := Numbered("<li>", "</li>")
  const Paragraph: LineRule := NonEmpty("<p>", "</p>")

  /** Rules 1-3: heading lines, `#` then `##` then `###`. */
  function Headings(md: string): string {
    ApplyHeadings(md, Tags)
  }

  /** Rules 4-5: bold before italic. */
  function Emphasis(s: string): string {
    Pairs(Pairs(s, "**", "<strong>", "</strong>"), "*", "<em>", "</em>")
  }

  /** Rule 6: inline code. */
  function InlineCode(s: string): string {
    Pairs(s, "`", "<code>", "</code>")
  }

  /** Rules 7-8: bullet items, then numbered items. */
  function ListItems(s: string): string {
    ApplyLines(ApplyLines(s, Bullet), NumberedItem)
  }

  ghost predicate FirstAt(s: string, pat: string, p: int) {
    OccursAt(s, pat, p) && forall k :: 0 <= k < p ==> !OccursAt(s, pat, k)
  }

  ghost predicate LastAt(s: string, pat: string, q: int) {
    OccursAt(s, pat, q) && forall k :: q < k ==> !OccursAt(s, pat, k)
  }

  /** Rule 9, `/(<li>.*<\/li>)/s` without the `g` flag. */
  function WrapList(s: string): string {
    WrapSpan(s, "<li>", "</li>")
  }

  /** The stretch from the first `first` to the end of the last `last`
      after it, put inside a `<ul>` element; the text as it is when there
      is no such stretch. */
  function WrapSpan(s: string, first: string, last: string): string
    requires |first| > 0 && |last| > 0
  {
    match Span(s, first, last)
    case None => s
    case Some(b) => WrapAt(s, b.0, b.1)
  }

  /** Where that stretch starts and ends, if there is one. */
  function Span(s: string, first: string, last: string): (r: Option<(nat, nat)>)
    requires |first| > 0 && |last| > 0
    ensures r.Some? ==> r.value.0 <= r.value.1 <= |s|
  {
    match IndexOf(s, first, 0)
    case None => None
    case Some(p) =>
      match LastIndexFrom(s, last, p + |first|)
      case None => None
      case Some(q) => Some((p, q + |last|))
  }

  lemma WrapSpanUnchanged(s: string, first: string, last: string)
    requires |first| > 0 && |last| > 0
    requires forall p, q :: OccursAt(s, first, p) && OccursAt(s, last, q) ==> q < p + |first|
    ensures WrapSpan(s, first, last) == s
  {
    match IndexOf(s, first, 0)
    case None =>
    case Some(p) =>
      match LastIndexFrom(s, last, p + |first|)
      case None =>
      case Some(q) =>
        assert false;
  }

  lemma WrapSpanWraps(s: string, first: string, last: string, p0: nat, q0: nat)
    requires |first| > 0 && |last| > 0
    requires OccursAt(s, first, p0) && OccursAt(s, last, q0) && p0 + |first| <= q0
    ensures exists p, q :: FirstAt(s, first, p) && LastAt(s, last, q) && p + |first| <= q
                           && WrapSpan(s, first, last) == s[..p] + "<ul>" + s[p..q + |last|] + "</ul>" + s[q + |last|..]
  {
    SpanFound(s, first, last, p0, q0);
    var b := Span(s, first, last).value;
    var p, q := b.0, b.1 - |last|;
    assert WrapSpan(s, first, last) == WrapAt(s, p, q + |last|);
  }

  /** An opening tag with a closing tag after it means there is a stretch:
      from the first opening tag to the end of the last closing tag. */
  lemma SpanFound(s: string, first: string, last: string, p0: nat, q0: nat)
    requires |first| > 0 && |last| > 0
    requires OccursAt(s, first, p0) && OccursAt(s, last, q0) && p0 + |first| <= q0
    ensures Span(s, first, last).Some?
    ensures var b := Span(s, first, last).value;
      b.1 >= |last| && FirstAt(s, first, b.0) && LastAt(s, last, b.1 - |last|) && b.0 + |first| <= b.1 - |last|
  {
    FoundBefore(s, first, 0, p0);
    var p := IndexOf(s, first, 0).value;
    FoundLast(s, last, p + |first|, q0);
    var q := LastIndexFrom(s, last, p + |first|).value;
    assert Span(s, first, last) == Some((p, q + |last|));
  }

  /** With no `<li>` followed by a `</li>`, nothing matches and the text
      is kept. */
  lemma WrapListUnchanged(s: string)
    requires forall p, q :: OccursAt(s, "<li>", p) && OccursAt(s, "</li>", q) ==> q < p + 4
    ensures WrapList(s) == s
  {
    WrapSpanUnchanged(s, "<li>", "</li>");
  }

  /** Otherwise one `<ul>` opens just before the first `<li>` and one
      `</ul>` closes just after the last `</li>`. If the first `<li>` had
      no `</li>` after it, no later one would either. */
  lemma WrapListWraps(s: string, p0: nat, q0: nat)
    requires OccursAt(s, "<li>", p0) && OccursAt(s, "</li>", q0) && p0 + 4 <= q0
    ensures exists p, q :: FirstAt(s, "<li>", p) && LastAt(s, "</li>", q) && p + 4 <= q
                           && WrapList(s) == s[..p] + "<ul>" + s[p..q + 5] + "</ul>" + s[q + 5..]
  {
    WrapSpanWraps(s, "<li>", "</li>", p0, q0);
  }

  /** The stretch `s[p..e]` put inside a `<ul>` element. */
  function WrapAt(s: string, p: nat, e: nat): (r: string)
    requires p <= e <= |s|
    ensures r == s[..p] + "<ul>" + s[p..e] + "</ul>" + s[e..]
  {
    s[..p] + "<ul>" + s[p..e] + "</ul>" + s[e..]
  }

  /** Rules 1-8: every rewrite that acts within a single line. */
  function LineRules(md: string): string {
    ListItems(InlineCode(Emphasis(Headings(md))))
  }

  /** Rules 4-6 and 7-8 as chains of line-local stages. */
  const MarkStages: seq<Stage> := [Pair("**", "<strong>", "</strong>"), Pair("*", "<em>", "</em>"), Pair("`", "<code>", "</code>")]
  const ListStages: seq<Stage> := [Rule(Bullet), Rule(NumberedItem)]

  /** Rules 1-9: everything the fence rule sees. */
  function BeforeFence(md: string): string {
    WrapList(LineRules(md))
  }

  /** Rules 11-12: blank-line pairs become paragraph breaks, then every
      non-empty line is wrapped. */
  function Paragraphs(s: string): string {
    ApplyLines(ReplaceAll(s, "\n\n", "</p><p>"), Paragraph)
  }

  /** `</h1></p>`, `</h2></p>` or `</h3></p>` starts `s`. */
  predicate HeadingCloseAt(s: string) {
    |s| >= 9 && s[..3] == "</h" && s[3] in "123" && s[4..9] == "></p>"
  }

  /** Rule 14, `/<\/h([123])><\/p>/g` -> `</h$1>`. */
  function UnwrapHeadingClose(s: string): string
    decreases |s|
  {
    if |s| == 0 then []
    else if HeadingCloseAt(s) then s[..5] + UnwrapHeadingClose(s[9..])
    else [s[0]] + UnwrapHeadingClose(s[1..])
  }

  /** Rules 13-18: a paragraph wrapper is dropped where it touches a
      heading, list or preformatted tag. */
  function Unwrap(s: string): string {
    var a := ReplaceAll(s, "<p><h", "<h");
    var b := UnwrapHeadingClose(a);
    var c := ReplaceAll(b, "<p><ul>", "<ul>");
    var d := ReplaceAll(c, "</ul></p>", "</ul>");
    var e := ReplaceAll(d, "<p><pre>", "<pre>");
    ReplaceAll(e, "</pre></p>", "</pre>")
  }

  /** `convertMarkdownToHTML`: the eighteen rewrites in source order. */
  function ConvertMarkdownToHtml(md: string): string {
    Unwrap(Paragraphs(Fence(BeforeFence(md), "<pre><code>", "</code></pre>")))
  }

  // ---------------------------------------------------------------------
  // Documents
  // ---------------------------------------------------------------------

  const DefaultFilename := "documentation"

  datatype ExportedFile = ExportedFile(name: string, mimeType: string, body: string)

  const HtmlHead := @"
<!DOCTYPE html>
<html lang=""en"">
<head>
    <meta charset=""UTF-8"">
    <meta name=""viewport"" content=""width=device-width, initial-scale=1.0"">
    <title>Generated Documentation</title>
    <style>
        body {
            font-family: -apple-system, BlinkMacSystemFont, 'Segoe UI', Roboto, sans-serif;
            line-height: 1.6;
            max-width: 800px;
            margin: 0 auto;
            padding: 2rem;
            color: #333;
            background: #fff;
        }
        h1 { color: #2563eb; border-bottom: 2px solid #e5e7eb; padding-bottom: 0.5rem; }
        h2 { color: #374151; margin-top: 2rem; }
        h3 { color: #4b5563; }
        code {
            background: #f3f4f6;
            padding: 0.2rem 0.4rem;
            border-radius: 0.25rem;
            font-family: 'Courier New', monospace;
        }
        pre {
            background: #1f2937;
            color: #10b981;
            padding: 1rem;
            border-radius: 0.5rem;
            overflow-x: auto;
        }
        pre code {
            background: none;
            color: inherit;
            padding: 0;
        }
        ul, ol { padding-left: 1.5rem; }
        li { margin: 0.5rem 0; }
        blockquote {
            border-left: 4px solid #3b82f6;
            margin: 1rem 0;
            padding-left: 1rem;
            color: #6b7280;
        }
        .header {
            text-align: center;
            margin-bottom: 3rem;
            padding-bottom: 2rem;
            border-bottom: 1px solid #e5e7eb;
        }
        .generated-by {
            text-align: center;
            margin-top: 3rem;
            padding-top: 2rem;
            border-top: 1px solid #e5e7eb;
            color: #6b7280;
            font-size: 0.9rem;
        }
    </style>
</head>
<body>
"

  const PdfHead := @"
<!DOCTYPE html>
<html>
<head>
    <meta charset=""UTF-8"">
    <title>Documentation</title>
    <style>
        @page { margin: 2cm; }
        body {
            font-family: -apple-system, BlinkMacSystemFont, 'Segoe UI', Roboto, sans-serif;
            line-height: 1.6;
            color: #333;
            font-size: 14px;
        }
        h1 { 
            color: #2563eb; 
            border-bottom: 2px solid #e5e7eb; 
            padding-bottom: 0.5rem;
            page-break-after: avoid;
        }
        h2 { 
            color: #374151; 
            margin-top: 2rem;
            page-break-after: avoid;
        }
        h3 { 
            color: #4b5563;
            page-break-after: avoid;
        }
        code {
            background: #f3f4f6;
            padding: 0.2rem 0.4rem;
            border-radius: 0.25rem;
            font-family: 'Courier New', monospace;
            font-size: 12px;
        }
        pre {
            background: #f8f9fa;
            border: 1px solid #e5e7eb;
            padding: 1rem;
            border-radius: 0.5rem;
            overflow-x: auto;
            page-break-inside: avoid;
            font-size: 12px;
        }
        pre code {
            background: none;
            padding: 0;
        }
        ul, ol { padding-left: 1.5rem; }
        li { margin: 0.3rem 0; }
        .header {
            text-align: center;
            margin-bottom: 2rem;
            padding-bottom: 1rem;
            border-bottom: 1px solid #e5e7eb;
        }
        .page-break { page-break-before: always; }
    </style>
</head>
<body>
"

  /** The dated banner both documents open their body with. */
  function Banner(date: string): string {
    "    <div class=\"header\">\n        <h1>\U{1F4DA} Project Documentation</h1>\n        <p>Generated on "
    + date + "</p>\n    </div>\n"
  }

  const ContentOpen := "    \n    <div class=\"content\">\n        "
  const ContentClose := "\n    </div>\n    \n"
  const Footer := "    <div class=\"generated-by\">\n        <p>Generated with \U{2764}\U{FE0F} by <strong>GitDocAI</strong></p>\n    </div>\n</body>\n</html>"

  /** The template of `exportToHTML`. */
  function HtmlDocument(content: string, date: string): string {
    HtmlPrefix(date) + ConvertMarkdownToHtml(content) + HtmlSuffix
  }

  /** The template of `exportToPDF`: the converted content follows the
      banner directly, with no content division and no footer. */
  function PdfDocument(content: string, date: string): string {
    PdfPrefix(date) + ConvertMarkdownToHtml(content) + PdfSuffix
  }

  /** The framing around the converted content in the HTML document. */
  function HtmlPrefix(date: string): string {
    HtmlHead + Banner(date) + ContentOpen
  }

  const HtmlSuffix := ContentClose + Footer

  function PdfPrefix(date: string): string {
    PdfHead + Banner(date) + "    "
  }

  const PdfSuffix := "\n</body>\n</html>"

  /** The download `exportToHTML` triggers; `filename` is `None` when the
      caller leaves the parameter out. */
  function ExportToHtml(content: string, filename: Option<string>, date: string): (f: ExportedFile)
    ensures f.name == filename.GetOr(DefaultFilename) + ".html"
    ensures f.mimeType == "text/html"
  {
    ExportedFile(filename.GetOr(DefaultFilename) + ".html", "text/html", HtmlDocument(content, date))
  }
}

module ExportLemmas {
  import opened Text
  import opened MarkdownRules
  import opened ExportService

  /** Tags without backticks put around a stretch keep "no two adjacent
      backticks". */
  lemma WrapNoDouble(x: string, open: string, mid: string, close: string, y: string)
    requires NoDoubleTick(x) && NoDoubleTick(mid) && NoDoubleTick(y)
    requires |open| > 0 && |close| > 0 && Lacks(open, '`') && Lacks(close, '`')
    ensures NoDoubleTick(x + open + mid + close + y)
  {
    LacksNoDouble(open);
    LacksNoDouble(close);
    NoDoubleConcat(x, open);
    NoDoubleConcat(x + open, mid);
    NoDoubleConcat(x + open + mid, close);
    NoDoubleConcat(x + open + mid + close, y);
  }

  /** Rule 9 keeps "no two adjacent backticks": it only inserts tags. */
  lemma WrapListNoDouble(s: string)
    requires NoDoubleTick(s)
    ensures NoDoubleTick(WrapList(s))
  {
    WrapSpanNoDouble(s, "<li>", "</li>");
  }

  lemma WrapSpanNoDouble(s: string, first: string, last: string)
    requires NoDoubleTick(s) && |first| > 0 && |last| > 0
    ensures NoDoubleTick(WrapSpan(s, first, last))
  {
    match Span(s, first, last)
    case None =>
    case Some(b) =>
      WrapAtNoDouble(s, b.0, b.1);
  }

  lemma WrapAtNoDouble(s: string, p: nat, e: nat)
    requires NoDoubleTick(s) && p <= e <= |s|
    ensures NoDoubleTick(WrapAt(s, p, e))
  {
    NoDoubleSlice(s, 0, p);
    NoDoubleSlice(s, p, e);
    NoDoubleSlice(s, e, |s|);
    assert Lacks("<ul>", '`') && Lacks("</ul>", '`');
    WrapNoDouble(s[..p], "<ul>", s[p..e], "</ul>", s[e..]);
  }

  lemma InlineCodeNoDouble(e: string)
    ensures NoDoubleTick(InlineCode(e))
  {
    assert Lacks("<code>", '`') && Lacks("</code>", '`');
    InlineCodeLeavesOneTickPerLine(e, "<code>", "</code>");
    OneTickNoDouble(InlineCode(e), false);
  }

  lemma ListItemsNoDouble(c: string)
    requires NoDoubleTick(c)
    ensures NoDoubleTick(ListItems(c))
  {
    assert TickFreeTags(Bullet) && TickFreeTags(NumberedItem);
    ApplyLinesNoDouble(c, Bullet);
    ApplyLinesNoDouble(ApplyLines(c, Bullet), NumberedItem);
  }

  /** The fenced-code rule (rule 10) never changes anything: by the time
      it runs, inline-code pairing has left at most one backtick per line,
      so "```" occurs nowhere and no `<pre>` block is ever produced. */
  lemma {:induction false} FenceNeverFires(md: string)
    ensures Fence(BeforeFence(md), "<pre><code>", "</code></pre>") == BeforeFence(md)
    ensures ConvertMarkdownToHtml(md) == Unwrap(Paragraphs(BeforeFence(md)))
  {
    var c := InlineCode(Emphasis(Headings(md)));
    InlineCodeNoDouble(Emphasis(Headings(md)));
    ListItemsNoDouble(c);
    WrapListNoDouble(ListItems(c));
    FenceIdle(BeforeFence(md), "<pre><code>", "</code></pre>");
  }

  // ---------------------------------------------------------------------
  // Rules 1-8 line by line
  // ---------------------------------------------------------------------

  lemma MarkStagesLocal()
    ensures LineLocal(MarkStages[0]) && LineLocal(MarkStages[1]) && LineLocal(MarkStages[2])
  {
    assert OneLine("<strong>") && OneLine("</strong>") && OneLine("<em>") && OneLine("</em>");
    assert OneLine("<code>") && OneLine("</code>") && OneLine("**") && OneLine("*") && OneLine("`");
  }

  lemma ListStagesLocal()
    ensures LineLocal(ListStages[0]) && LineLocal(ListStages[1])
  {
    assert OneLine("<li>") && OneLine("</li>");
  }

  /** Rules 1-8 as one chain of line-local stages. */
  lemma LineStagesRun(s: string)
    ensures AllLineLocal(HeadingStages(Tags) + MarkStages + ListStages)
    ensures Run(HeadingStages(Tags) + MarkStages + ListStages, s) == LineRules(s)
  {
    assert Tags.Valid();
    HeadingStagesRun(Tags, s);
    var h := ApplyHeadings(s, Tags);
    MarkStagesLocal();
    RunThree(MarkStages[0], MarkStages[1], MarkStages[2], h);
    var c := InlineCode(Emphasis(h));
    ListStagesLocal();
    RunTwo(ListStages[0], ListStages[1], c);
    RunAppend(HeadingStages(Tags), MarkStages, s);
    RunAppend(HeadingStages(Tags) + MarkStages, ListStages, s);
  }

  /** Rules 1-8 act on each line of the document on its own: the text
      they hand to rule 9 has the document's lines, each converted as if
      it stood alone, and the document's terminators. */
  lemma LineRulesByLines(md: string)
    ensures |Lines(LineRules(md))| == |Lines(md)|
    ensures forall i :: 0 <= i < |Lines(md)| ==> Lines(LineRules(md))[i] == LineRules(Lines(md)[i])
    ensures Terminators(LineRules(md)) == Terminators(md)
  {
    LineStagesRun(md);
    DocumentByLines(HeadingStages(Tags) + MarkStages + ListStages, md);
    forall i | 0 <= i < |Lines(md)|
      ensures Lines(LineRules(md))[i] == LineRules(Lines(md)[i])
    {
      LineStagesRun(Lines(md)[i]);
    }
  }

  /** Each line put through rules 1-8 on its own. */
  function ExportLines(ls: seq<string>): (r: seq<string>)
    ensures |r| == |ls|
    ensures forall i :: 0 <= i < |ls| ==> r[i] == LineRules(ls[i])
  {
    seq(|ls|, i requires 0 <= i < |ls| => LineRules(ls[i]))
  }

  /** The whole conversion, with rules 1-8 done line by line: rules 9-18
      see the converted lines joined by the document's own terminators. */
  lemma ConvertByLines(md: string)
    ensures ConvertMarkdownToHtml(md) == Unwrap(Paragraphs(WrapList(Unlines(ExportLines(Lines(md)), Terminators(md)))))
  {
    FenceNeverFires(md);
    LineRulesByLines(md);
    LinesRoundTrip(LineRules(md));
    assert Lines(LineRules(md)) == ExportLines(Lines(md));
  }

  // ---------------------------------------------------------------------
  // A heading line
  // ---------------------------------------------------------------------

  function HeadingOpen(n: nat): string
    requires 1 <= n <= 3
  {
    "<h" + [LevelDigit(n)] + ">"
  }

  /** Heading text the later rules leave alone: one line, no emphasis or
      code markers, no raw tags. */
  predicate PlainText(t: string) {
    forall i :: 0 <= i < |t| ==> !IsTerminator(t[i]) && t[i] != '*' && t[i] != '`' && t[i] != '<'
  }

  function HeadingHtml(n: nat, t: string): string
    requires 1 <= n <= 3
  {
    HeadingOpen(n) + t + HeadingClose(n)
  }

  lemma HeadingsOfMarker(n: nat, t: string)
    requires 1 <= n <= 3 && PlainText(t)
    ensures Headings(HeadingMarker(n) + t) == HeadingHtml(n, t)
  {
    assert Tags.Valid();
    assert Tags.Open(n) == HeadingOpen(n);
    HeadingLine(n, t, Tags);
  }

  /** In a rendered heading a '<' only starts its two tags. */
  lemma HeadingLt(n: nat, t: string, k: int)
    requires 1 <= n <= 3 && PlainText(t)
    requires 0 <= k < |HeadingHtml(n, t)| && HeadingHtml(n, t)[k] == '<'
    ensures k == 0 || k == |t| + 4
  {
    var h := HeadingHtml(n, t);
    assert forall i :: 4 <= i < |t| + 4 ==> h[i] == t[i - 4];
  }

  /** None of the list and preformatted patterns occurs in a heading. */
  lemma HeadingNoMatch(n: nat, t: string, pat: string)
    requires 1 <= n <= 3 && PlainText(t)
    requires pat == "<li>" || pat == "<p><ul>" || pat == "</ul></p>" || pat == "<p><pre>" || pat == "</pre></p>"
    ensures forall k :: !OccursAt(HeadingHtml(n, t), pat, k)
  {
    var h := HeadingHtml(n, t);
    assert h[1] == 'h' && h[|t| + 5] == '/' && h[|t| + 6] == 'h';
    forall k | OccursAt(h, pat, k) ensures false {
      var w := h[k..k + |pat|];
      assert w[0] == h[k];
      HeadingLt(n, t, k);
    }
  }

  /** A rendered heading holds none of the characters rules 4-8 look for. */
  lemma HeadingInert(n: nat, t: string)
    requires 1 <= n <= 3 && PlainText(t)
    ensures forall k :: 0 <= k < |HeadingHtml(n, t)| ==>
      HeadingHtml(n, t)[k] != '*' && HeadingHtml(n, t)[k] != '`' && !IsTerminator(HeadingHtml(n, t)[k])
  {
    var h := HeadingHtml(n, t);
    assert forall i :: 4 <= i < |t| + 4 ==> h[i] == t[i - 4];
  }

  /** Rules 4-9 leave a rendered heading as it is. */
  lemma HeadingSurvivesInline(n: nat, t: string)
    requires 1 <= n <= 3 && PlainText(t)
    ensures BeforeFence(HeadingMarker(n) + t) == HeadingHtml(n, t)
  {
    HeadingLineRules(n, t);
    HeadingNoMatch(n, t, "<li>");
  }

  /** Rules 1-8 turn a heading line into its element. */
  lemma HeadingLineRules(n: nat, t: string)
    requires 1 <= n <= 3 && PlainText(t)
    ensures LineRules(HeadingMarker(n) + t) == HeadingHtml(n, t)
  {
    var h := HeadingHtml(n, t);
    HeadingsOfMarker(n, t);
    HeadingInert(n, t);
    PairsAbsent(h, "**", "<strong>", "</strong>");
    PairsAbsent(h, "*", "<em>", "</em>");
    assert Emphasis(h) == h;
    PairsAbsent(h, "`", "<code>", "</code>");
    assert InlineCode(h) == h;
    ListItemsOfHeading(n, t);
  }

  lemma ListItemsOfHeading(n: nat, t: string)
    requires 1 <= n <= 3 && PlainText(t)
    ensures ListItems(HeadingHtml(n, t)) == HeadingHtml(n, t)
  {
    var h := HeadingHtml(n, t);
    HeadingInert(n, t);
    ApplyLinesSingle(h, Bullet);
    assert h[..2][0] == '<';
    ApplyLinesSingle(h, NumberedItem);
    assert !IsDigit(h[0]);
  }

  lemma {:induction false} UnwrapHeadingCloseSkip(x: string, y: string)
    requires Lacks(x, '<')
    ensures UnwrapHeadingClose(x + y) == x + UnwrapHeadingClose(y)
    decreases |x|
  {
    if |x| == 0 {
      assert x + y == y;
    } else {
      var xy := x + y;
      assert xy[0] == x[0];
      UnwrapHeadingCloseStep(xy);
      assert xy[1..] == x[1..] + y;
      assert Lacks(x[1..], '<');
      UnwrapHeadingCloseSkip(x[1..], y);
      assert x == [x[0]] + x[1..];
    }
  }

  /** A character other than '<' is copied. */
  lemma UnwrapHeadingCloseStep(s: string)
    requires |s| > 0 && s[0] != '<'
    ensures UnwrapHeadingClose(s) == [s[0]] + UnwrapHeadingClose(s[1..])
  {
    assert !HeadingCloseAt(s) by {
      if |s| >= 9 { assert s[..3][0] == s[0]; }
    }
  }

  /** Rules 11-12 wrap the heading line in a paragraph. */
  lemma HeadingParagraph(n: nat, t: string)
    requires 1 <= n <= 3 && PlainText(t)
    ensures Paragraphs(HeadingHtml(n, t)) == "<p>" + HeadingHtml(n, t) + "</p>"
  {
    var h := HeadingHtml(n, t);
    HeadingInert(n, t);
    ReplaceAllAbsent(h, "\n\n", "</p><p>");
    ApplyLinesSingle(h, Paragraph);
  }

  /** Rule 13 drops the opening `<p>`. */
  lemma HeadingUnwrapOpen(n: nat, t: string)
    requires 1 <= n <= 3 && PlainText(t)
    ensures ReplaceAll("<p>" + HeadingHtml(n, t) + "</p>", "<p><h", "<h") == HeadingHtml(n, t) + "</p>"
  {
    var x := [LevelDigit(n)] + ">" + t;
    var z := HeadingClose(n) + "</p>";
    HeadingAround(n, t);
    ClosingTagsKept(HeadingClose(n));
    ReplaceHeadOnly("<p><h", x, z, "<h");
  }

  /** The heading inside a paragraph, cut after `<p><h` and before its
      closing tag; the middle has no '<'. */
  lemma HeadingAround(n: nat, t: string)
    requires 1 <= n <= 3 && PlainText(t)
    ensures "<p>" + HeadingHtml(n, t) + "</p>" == "<p><h" + ([LevelDigit(n)] + ">" + t) + (HeadingClose(n) + "</p>")
    ensures HeadingHtml(n, t) + "</p>" == "<h" + ([LevelDigit(n)] + ">" + t) + (HeadingClose(n) + "</p>")
    ensures Lacks([LevelDigit(n)] + ">" + t, '<')
  {
    var d := [LevelDigit(n)] + ">";
    assert Lacks(d, '<');
    assert Lacks(t, '<');
    LacksConcat(d, t, '<');
  }

  /** A string that is `pat`, then text without `pat`'s first character,
      then a tail already free of `pat`, loses only its leading `pat`. */
  lemma ReplaceHeadOnly(pat: string, x: string, z: string, rep: string)
    requires |pat| > 0 && Lacks(x, pat[0]) && ReplaceAll(z, pat, rep) == z
    ensures ReplaceAll(pat + x + z, pat, rep) == rep + x + z
  {
    var w := x + z;
    assert pat + x + z == pat + w;
    ReplaceAllMatchHead(pat, w, rep);
    ReplaceAllSkip(x, z, pat, rep);
    assert rep + w == rep + x + z;
  }

  lemma ClosingTagsKept(c: string)
    requires |c| == 5 && c[..3] == "</h" && c[3] in "123" && c[4] == '>'
    ensures ReplaceAll(c + "</p>", "<p><h", "<h") == c + "</p>"
  {
    var z := c + "</p>";
    var a := c[1..];
    CloseTagTail(c);
    assert !StartsWith(z, "<p><h") by {
      assert z[..5][1] == c[1];
    }
    assert z[1..] == a + "</p>";
    ReplaceAllSkip(a, "</p>", "<p><h", "<h");
    ReplaceAllNoMatch("</p>", "<p><h", "<h");
    assert [z[0]] + (a + "</p>") == z;
  }

  /** After its `<`, a closing heading tag holds no other `<`. */
  lemma CloseTagTail(c: string)
    requires |c| == 5 && c[..3] == "</h" && c[3] in "123" && c[4] == '>'
    ensures c[0] == '<' && c[1] == '/'
    ensures forall i :: 0 <= i < |c[1..]| ==> c[1..][i] != '<'
  {
    assert c[0] == c[..3][0] && c[1] == c[..3][1] && c[2] == c[..3][2];
  }

  /** Rule 14 drops the closing `</p>`. */
  lemma HeadingUnwrapClose(n: nat, t: string)
    requires 1 <= n <= 3 && PlainText(t)
    ensures UnwrapHeadingClose(HeadingHtml(n, t) + "</p>") == HeadingHtml(n, t)
  {
    var y := HeadingOpen(n)[1..] + t;
    var z := HeadingClose(n) + "</p>";
    var a := HeadingHtml(n, t) + "</p>";
    OpenTailLacks(n, t);
    HeadingSplitAtOpen(n, t);
    UnwrapHeadingCloseAtOpen(a);
    UnwrapHeadingCloseSkip(y, z);
    UnwrapHeadingCloseOfClose(HeadingClose(n));
  }

  lemma HeadingSplitAtOpen(n: nat, t: string)
    requires 1 <= n <= 3
    ensures HeadingHtml(n, t) == "<" + (HeadingOpen(n)[1..] + t) + HeadingClose(n)
    ensures HeadingHtml(n, t) + "</p>"
            == "<" + (HeadingOpen(n)[1..] + t) + (HeadingClose(n) + "</p>")
    ensures (HeadingHtml(n, t) + "</p>")[1..] == (HeadingOpen(n)[1..] + t) + (HeadingClose(n) + "</p>")
    ensures (HeadingHtml(n, t) + "</p>")[1] == 'h'
  {
  }

  /** At an opening heading tag rule 14 does not match. */
  lemma UnwrapHeadingCloseAtOpen(s: string)
    requires |s| > 1 && s[1] == 'h'
    ensures UnwrapHeadingClose(s) == [s[0]] + UnwrapHeadingClose(s[1..])
  {
    assert !HeadingCloseAt(s) by {
      if |s| >= 9 { assert s[..3][1] == s[1]; }
    }
  }

  /** After its `<`, an opening heading tag and plain text hold no other `<`. */
  lemma OpenTailLacks(n: nat, t: string)
    requires 1 <= n <= 3 && PlainText(t)
    ensures Lacks(HeadingOpen(n)[1..] + t, '<')
  {
    var y := HeadingOpen(n)[1..] + t;
    assert forall i :: 3 <= i < |y| ==> y[i] == t[i - 3];
  }

  lemma UnwrapHeadingCloseOfClose(c: string)
    requires |c| == 5 && c[..3] == "</h" && c[3] in "123" && c[4] == '>'
    ensures UnwrapHeadingClose(c + "</p>") == c
  {
    var z := c + "</p>";
    assert HeadingCloseAt(z);
    assert z[9..] == [];
    assert z[..5] == c;
  }

  /** Rules 13-18 take that paragraph off again. */
  lemma HeadingUnwrap(n: nat, t: string)
    requires 1 <= n <= 3 && PlainText(t)
    ensures Unwrap("<p>" + HeadingHtml(n, t) + "</p>") == HeadingHtml(n, t)
  {
    var h := HeadingHtml(n, t);
    HeadingUnwrapOpen(n, t);
    HeadingUnwrapClose(n, t);
    HeadingNoMatch(n, t, "<p><ul>");
    ReplaceAllNoMatch(h, "<p><ul>", "<ul>");
    HeadingNoMatch(n, t, "</ul></p>");
    ReplaceAllNoMatch(h, "</ul></p>", "</ul>");
    HeadingNoMatch(n, t, "<p><pre>");
    ReplaceAllNoMatch(h, "<p><pre>", "<pre>");
    HeadingNoMatch(n, t, "</pre></p>");
    ReplaceAllNoMatch(h, "</pre></p>", "</pre>");
  }

  /** A `#`, `##` or `###` line of plain text converts to exactly that
      heading element, and to nothing else. */
  lemma HeadingConverts(n: nat, t: string)
    requires 1 <= n <= 3 && PlainText(t)
    ensures ConvertMarkdownToHtml(HeadingMarker(n) + t) == HeadingHtml(n, t)
  {
    HeadingSurvivesInline(n, t);
    FenceNeverFires(HeadingMarker(n) + t);
    HeadingParagraph(n, t);
    HeadingUnwrap(n, t);
  }

  // ---------------------------------------------------------------------
  // Lines inside a document
  // ---------------------------------------------------------------------

  /** Whatever rules 1-8 make of a line on its own, they make of that
      line wherever it stands in a document. */
  lemma LineInDocument(md: string, i: nat, h: string)
    requires i < |Lines(md)| && LineRules(Lines(md)[i]) == h
    ensures i < |Lines(LineRules(md))| && Lines(LineRules(md))[i] == h
  {
    LineRulesByLines(md);
  }

  /** Line `i` of any document, a `#`, `##` or `###` heading of plain
      text, reaches rule 9 as that heading element. */
  lemma HeadingInDocument(md: string, i: nat, n: nat, t: string)
    requires i < |Lines(md)| && 1 <= n <= 3 && PlainText(t) && Lines(md)[i] == HeadingMarker(n) + t
    ensures i < |Lines(LineRules(md))| && Lines(LineRules(md))[i] == HeadingHtml(n, t)
  {
    HeadingLineRules(n, t);
    LineInDocument(md, i, HeadingHtml(n, t));
  }

  /** Line `i` of any document, `- ` and plain text, reaches rule 9 as a
      list item. */
  lemma BulletInDocument(md: string, i: nat, t: string)
    requires i < |Lines(md)| && PlainLine(t) && Lines(md)[i] == "- " + t
    ensures i < |Lines(LineRules(md))| && Lines(LineRules(md))[i] == "<li>" + t + "</li>"
  {
    BulletLineRules(t);
    LineInDocument(md, i, "<li>" + t + "</li>");
  }

  /** Line `i` of any document, a digit run, `. ` and plain text, reaches
      rule 9 as a list item with the number dropped. */
  lemma NumberedInDocument(md: string, i: nat, d: string, t: string)
    requires i < |Lines(md)| && |d| > 0 && (forall k :: 0 <= k < |d| ==> IsDigit(d[k]))
    requires PlainLine(t) && Lines(md)[i] == d + ". " + t
    ensures i < |Lines(LineRules(md))| && Lines(LineRules(md))[i] == "<li>" + t + "</li>"
  {
    NumberedLineRules(d, t);
    LineInDocument(md, i, "<li>" + t + "</li>");
  }

  /** Line `i` of any document, `**x**` with plain `x`, reaches rule 9 as
      a strong element: bold runs before italic, so no `<em>` appears. */
  lemma BoldInDocument(md: string, i: nat, x: string)
    requires i < |Lines(md)| && PlainLine(x) && Lines(md)[i] == "**" + x + "**"
    ensures i < |Lines(LineRules(md))| && Lines(LineRules(md))[i] == "<strong>" + x + "</strong>"
  {
    BoldLineRules(x);
    LineInDocument(md, i, "<strong>" + x + "</strong>");
  }

  /** A line of plain text is left alone by the heading and inline rules
      when it does not start with `#`. */
  lemma PlainBeforeLists(s: string)
    requires PlainLine(s) && |s| > 0 && s[0] != '#'
    ensures InlineCode(Emphasis(Headings(s))) == s
  {
    NotPrefixedLine(s, HeadingRule(Tags, 1));
    NotPrefixedLine(s, HeadingRule(Tags, 2));
    NotPrefixedLine(s, HeadingRule(Tags, 3));
    assert Headings(s) == s;
    PairsAbsent(s, "**", "<strong>", "</strong>");
    PairsAbsent(s, "*", "<em>", "</em>");
    PairsAbsent(s, "`", "<code>", "</code>");
  }

  /** A list item the list rules wrote is not matched by them again. */
  lemma ItemTagged(t: string)
    requires PlainLine(t)
    ensures PlainLine("<li>" + t + "</li>")
    ensures ApplyLines("<li>" + t + "</li>", NumberedItem) == "<li>" + t + "</li>"
  {
    var h := "<li>" + t + "</li>";
    PlainByMembership("<li>");
    PlainByMembership("</li>");
    PlainConcat("<li>", t);
    PlainConcat("<li>" + t, "</li>");
    ApplyLinesSingle(h, NumberedItem);
    NoNumberMarker(h);
  }

  lemma BulletLineRules(t: string)
    requires PlainLine(t)
    ensures LineRules("- " + t) == "<li>" + t + "</li>"
  {
    var s := "- " + t;
    PlainByMembership("- ");
    PlainConcat("- ", t);
    PlainBeforeLists(s);
    ApplyLinesSingle(s, Bullet);
    assert StartsWith(s, "- ") && s[2..] == t;
    ItemTagged(t);
  }

  lemma NumberedLineRules(d: string, t: string)
    requires |d| > 0 && forall k :: 0 <= k < |d| ==> IsDigit(d[k])
    requires PlainLine(t)
    ensures LineRules(d + ". " + t) == "<li>" + t + "</li>"
  {
    var s := d + ". " + t;
    NumberedLinePlain(d, t);
    PlainBeforeLists(s);
    NotPrefixedLine(s, Bullet);
    ApplyLinesSingle(s, NumberedItem);
    NumberMarkerOf(d, t);
    assert s[|d| + 2..] == t;
  }

  lemma NumberedLinePlain(d: string, t: string)
    requires |d| > 0 && forall k :: 0 <= k < |d| ==> IsDigit(d[k])
    requires PlainLine(t)
    ensures PlainLine(d + ". " + t) && (d + ". " + t)[0] == d[0]
  {
    var s := d + ". " + t;
    forall k | 0 <= k < |s|
      ensures !IsTerminator(s[k]) && s[k] != '*' && s[k] != '`'
    {
      if k >= |d| + 2 {
        assert s[k] == t[k - |d| - 2];
      }
    }
  }

  lemma BoldLineRules(x: string)
    requires PlainLine(x)
    ensures LineRules("**" + x + "**") == "<strong>" + x + "</strong>"
  {
    var s := "**" + x + "**";
    var h := "<strong>" + x + "</strong>";
    BoldHeadings(x);
    BoldBeforeItalic(x);
    StrongPlain(x);
    PairsAbsent(h, "`", "<code>", "</code>");
    assert InlineCode(Emphasis(Headings(s))) == h;
    NotPrefixedLine(h, Bullet);
    ApplyLinesSingle(h, NumberedItem);
    NoNumberMarker(h);
  }

  lemma BoldHeadings(x: string)
    requires PlainLine(x)
    ensures Headings("**" + x + "**") == "**" + x + "**"
  {
    var s := "**" + x + "**";
    assert OneLine(s) by {
      assert OneLine("**");
      OneLineJoin("**", x, "**", []);
      assert "**" + x + "**" + [] == s;
    }
    NotPrefixedLine(s, HeadingRule(Tags, 1));
    NotPrefixedLine(s, HeadingRule(Tags, 2));
    NotPrefixedLine(s, HeadingRule(Tags, 3));
  }

  lemma StrongPlain(x: string)
    requires PlainLine(x)
    ensures PlainLine("<strong>" + x + "</strong>") && ("<strong>" + x + "</strong>")[0] == '<'
  {
    PlainByMembership("<strong>");
    PlainByMembership("</strong>");
    PlainConcat("<strong>", x);
    PlainConcat("<strong>" + x, "</strong>");
  }

  // ---------------------------------------------------------------------
  // Paragraph unwrapping
  // ---------------------------------------------------------------------

  /** Rule 14 changes nothing where no `</hN></p>` starts. */
  lemma {:induction false} UnwrapHeadingCloseIdle(s: string)
    requires forall k :: 0 <= k <= |s| ==> !HeadingCloseAt(s[k..])
    ensures UnwrapHeadingClose(s) == s
    decreases |s|
  {
    if |s| > 0 {
      assert !HeadingCloseAt(s[0..]) && s[0..] == s;
      assert forall k :: 0 <= k <= |s[1..]| ==> s[1..][k..] == s[k + 1..];
      UnwrapHeadingCloseIdle(s[1..]);
    }
  }

  /** Rules 13-18 drop a paragraph tag only where it touches a heading,
      list or preformatted tag: text in which none does is kept as is. */
  lemma UnwrapOnlyAtBlocks(s: string)
    requires forall k :: !OccursAt(s, "<p><h", k)
    requires forall k :: 0 <= k <= |s| ==> !HeadingCloseAt(s[k..])
    requires forall k :: !OccursAt(s, "<p><ul>", k) && !OccursAt(s, "</ul></p>", k)
    requires forall k :: !OccursAt(s, "<p><pre>", k) && !OccursAt(s, "</pre></p>", k)
    ensures Unwrap(s) == s
  {
    ReplaceAllNoMatch(s, "<p><h", "<h");
    UnwrapHeadingCloseIdle(s);
    ReplaceAllNoMatch(s, "<p><ul>", "<ul>");
    ReplaceAllNoMatch(s, "</ul></p>", "</ul>");
    ReplaceAllNoMatch(s, "<p><pre>", "<pre>");
    ReplaceAllNoMatch(s, "</pre></p>", "</pre>");
  }

  // ---------------------------------------------------------------------
  // Empty input and the documents
  // ---------------------------------------------------------------------

  /** Empty markdown converts to the empty string. */
  lemma ConvertEmpty()
    ensures ConvertMarkdownToHtml("") == ""
  {
    assert Headings("") == "";
    assert Emphasis("") == "" && InlineCode("") == "";
    assert ListItems("") == "";
    assert WrapList("") == "";
    assert Fence("", "<pre><code>", "</code></pre>") == "";
    assert Paragraphs("") == "";
  }

  /** The HTML download carries exactly the converted content inside its
      content division, and it can be read back from there. */
  lemma HtmlDocumentRoundTrip(content: string, date: string)
    ensures Unframe(HtmlDocument(content, date), HtmlPrefix(date), HtmlSuffix) == Some(ConvertMarkdownToHtml(content))
  {
    UnframeFrame(HtmlPrefix(date), ConvertMarkdownToHtml(content), HtmlSuffix);
  }

  /** The print document carries the converted content right after the
      banner, and it can be read back from there. */
  lemma PdfDocumentRoundTrip(content: string, date: string)
    ensures Unframe(PdfDocument(content, date), PdfPrefix(date), PdfSuffix) == Some(ConvertMarkdownToHtml(content))
  {
    UnframeFrame(PdfPrefix(date), ConvertMarkdownToHtml(content), PdfSuffix);
  }

  // ---------------------------------------------------------------------
  // Emphasis and paragraphs
  // ---------------------------------------------------------------------

  lemma StrongTagsStarFree()
    ensures forall i :: 0 <= i < |"<strong>"| ==> "<strong>"[i] != '*'
    ensures forall i :: 0 <= i < |"</strong>"| ==> "</strong>"[i] != '*'
  {
  }

  /** Bold runs first: `**x**` becomes `<strong>x</strong>`, and the
      single-star italic rule then finds nothing left to wrap. */
  lemma BoldBeforeItalic(x: string)
    requires forall i :: 0 <= i < |x| ==> x[i] != '*' && !IsTerminator(x[i])
    ensures Emphasis("**" + x + "**") == "<strong>" + x + "</strong>"
  {
    PairsFrame(x, "**", "<strong>", "</strong>");
    StrongTagsStarFree();
    var t := "<strong>" + x + "</strong>";
    assert forall i :: 0 <= i < |t| ==> t[i] != '*' by {
      forall i | 0 <= i < |t|
        ensures t[i] != '*'
      {
        if i < 8 {
          assert t[i] == "<strong>"[i];
        } else if i < 8 + |x| {
          assert t[i] == x[i - 8];
        } else {
          assert t[i] == "</strong>"[i - 8 - |x|];
        }
      }
    }
    PairsAbsent(t, "*", "<em>", "</em>");
  }

  /** One non-empty line reaching the paragraph rules is wrapped whole. */
  lemma ParagraphOfLine(t: string)
    requires |t| > 0 && forall i :: 0 <= i < |t| ==> !IsTerminator(t[i])
    ensures Paragraphs(t) == "<p>" + t + "</p>"
  {
    ReplaceAllAbsent(t, "\n\n", "</p><p>");
    ApplyLinesSingle(t, Paragraph);
  }

  /** A blank line between two lines becomes a paragraph break, and each
      side is wrapped on its own. */
  lemma ParagraphBreak(a: string, b: string)
    requires |a| > 0 && forall i :: 0 <= i < |a| ==> !IsTerminator(a[i])
    requires |b| > 0 && forall i :: 0 <= i < |b| ==> !IsTerminator(b[i])
    ensures Paragraphs(a + "\n\n" + b) == "<p>" + a + "</p><p>" + b + "</p>"
  {
    BreakReplaced(a, b);
    assert OneLine("</p><p>");
    OneLineConcat(a, "</p><p>");
    OneLineConcat(a + "</p><p>", b);
    ApplyLinesSingle(a + "</p><p>" + b, Paragraph);
  }

  /** Rule 11 turns the one blank line into a paragraph break. */
  lemma BreakReplaced(a: string, b: string)
    requires forall i :: 0 <= i < |a| ==> !IsTerminator(a[i])
    requires forall i :: 0 <= i < |b| ==> !IsTerminator(b[i])
    ensures ReplaceAll(a + "\n\n" + b, "\n\n", "</p><p>") == a + "</p><p>" + b
  {
    ReplaceAllSkip(a, "\n\n" + b, "\n\n", "</p><p>");
    ReplaceAllMatchHead("\n\n", b, "</p><p>");
    ReplaceAllAbsent(b, "\n\n", "</p><p>");
    assert a + "\n\n" + b == a + ("\n\n" + b);
  }
}
