/**
 The styled tags of the documentation preview's renderer, and the fact
 that each of them is a single line with no markdown markers in it.
 */
module PreviewTags {
  import opened MarkdownRules

  // The tags are spelled as their class lists so that facts about their
  // characters stay cheap to check.
  const H1Open := "<h1 class=\"" + "text-3xl " + "font-bold " + "mb-4 " + "text-gray-800" + "\">"
  const H2Open := "<h2 class=\"" + "text-2xl " + "font-semibold " + "mb-3 " + "text-gray-700 " + "border-b " + "pb-2" + "\">"
  const H3Open := "<h3 class=\"" + "text-xl " + "font-medium " + "mb-2 " + "text-gray-600" + "\">"
  const Tags := HeadingTags(H1Open, H2Open, H3Open)

  const StrongOpen := "<strong class=\"" + "font-semibold" + "\">"
  const EmOpen := "<em class=\"" + "italic" + "\">"
  const CodeOpen := "<code class=\"" + "bg-gray-100 " + "px-2 " + "py-1 " + "rounded " + "text-sm " + "font-mono" + "\">"
  const ItemOpen := "<li class=\"" + "ml-4 " + "mb-1" + "\">"
  const BulletOpen := ItemOpen + "\U{2022} "
  const Bullet: LineRule := Prefixed("- ", BulletOpen, "</li>")
  const NumberedItem: LineRule := Numbered(ItemOpen, "</li>")
  const ParagraphBreak := "</p>" + "<p class=\"" + "mb-4" + "\">"
  const PreOpen := "<pre class=\"" + "bg-gray-900 " + "text-green-400 " + "p-4 " + "rounded-lg "
                   + "overflow-x-auto " + "mb-4" + "\">" + "<code>"
  const WrapperOpen := "<div class=\"" + "prose " + "max-w-none" + "\">" + "<p class=\"" + "mb-4" + "\">"
  const WrapperClose := "</p></div>"

  // Every tag the renderer writes is a single line with no markdown
  // markers in it.

  lemma H1Plain() ensures PlainLine(Tags.h1) {
    PieceH1ClassQ();
    PieceText3xl();
    PieceFontBold();
    PieceMb4();
    PieceTextGray800();
    PieceQ();
    Plain6("<h1 class=\"", "text-3xl ", "font-bold ", "mb-4 ", "text-gray-800", "\">");
  }
  lemma H2Plain() ensures PlainLine(Tags.h2) {
    PieceH2ClassQ();
    PieceText2xl();
    PieceFontSemibold();
    PieceMb3();
    PieceTextGray700();
    PieceBorderB();
    PiecePb2();
    PieceQ();
    Plain8("<h2 class=\"", "text-2xl ", "font-semibold ", "mb-3 ", "text-gray-700 ", "border-b ", "pb-2", "\">");
  }
  lemma H3Plain() ensures PlainLine(Tags.h3) {
    PieceH3ClassQ();
    PieceTextXl();
    PieceFontMedium();
    PieceMb2();
    PieceTextGray600();
    PieceQ();
    Plain6("<h3 class=\"", "text-xl ", "font-medium ", "mb-2 ", "text-gray-600", "\">");
  }
  lemma CodeOpenPlain() ensures PlainLine(CodeOpen) {
    PieceCodeClassQ();
    PieceBgGray100();
    PiecePx2();
    PiecePy1();
    PieceRounded();
    PieceTextSm();
    PieceFontMono();
    PieceQ();
    Plain8("<code class=\"", "bg-gray-100 ", "px-2 ", "py-1 ", "rounded ", "text-sm ", "font-mono", "\">");
  }
  lemma ItemOpenPlain() ensures PlainLine(ItemOpen) {
    PieceLiClassQ();
    PieceMl4();
    PieceMb1();
    PieceQ();
    Plain4("<li class=\"", "ml-4 ", "mb-1", "\">");
  }
  lemma StrongOpenPlain() ensures PlainLine(StrongOpen) {
    PieceStrongClassQ();
    PieceFontSemiboldLast();
    PieceQ();
    PlainConcat("<strong class=\"", "font-semibold");
    PlainConcat("<strong class=\"" + "font-semibold", "\">");
  }
  lemma EmOpenPlain() ensures PlainLine(EmOpen) {
    PieceEmClassQ();
    PieceItalic();
    PieceQ();
    PlainConcat("<em class=\"", "italic");
    PlainConcat("<em class=\"" + "italic", "\">");
  }
  lemma CodeTagsLackTick() ensures Lacks(CodeOpen, '`') && Lacks("</code>", '`') {
    CodeOpenPlain();
    PlainByMembership("</code>");
  }
  lemma BulletOpenPlain() ensures PlainLine(BulletOpen) {
    ItemOpenPlain();
    PlainByMembership("\U{2022} ");
    PlainConcat(ItemOpen, "\U{2022} ");
  }
  lemma ParagraphBreakPlain() ensures PlainLine(ParagraphBreak) {
    PieceCloseP();
    PiecePClassQ();
    PieceMb4Last();
    PieceQ();
    Plain4("</p>", "<p class=\"", "mb-4", "\">");
  }

  // The pieces of the long tags, one at a time: a fact about the
  // characters of one short literal is cheap, several together are not.
  lemma PieceH1ClassQ() ensures PlainLine("<h1 class=\"") { PlainByMembership("<h1 class=\""); }
  lemma PieceH2ClassQ() ensures PlainLine("<h2 class=\"") { PlainByMembership("<h2 class=\""); }
  lemma PieceH3ClassQ() ensures PlainLine("<h3 class=\"") { PlainByMembership("<h3 class=\""); }
  lemma PieceCodeClassQ() ensures PlainLine("<code class=\"") { PlainByMembership("<code class=\""); }
  lemma PieceQ() ensures PlainLine("\">") { PlainByMembership("\">"); }
  lemma PieceText3xl() ensures PlainLine("text-3xl ") { PlainByMembership("text-3xl "); }
  lemma PieceFontBold() ensures PlainLine("font-bold ") { PlainByMembership("font-bold "); }
  lemma PieceMb4() ensures PlainLine("mb-4 ") { PlainByMembership("mb-4 "); }
  lemma PieceTextGray800() ensures PlainLine("text-gray-800") { PlainByMembership("text-gray-800"); }
  lemma PieceText2xl() ensures PlainLine("text-2xl ") { PlainByMembership("text-2xl "); }
  lemma PieceFontSemibold() ensures PlainLine("font-semibold ") { PlainByMembership("font-semibold "); }
  lemma PieceMb3() ensures PlainLine("mb-3 ") { PlainByMembership("mb-3 "); }
  lemma PieceTextGray700() ensures PlainLine("text-gray-700 ") { PlainByMembership("text-gray-700 "); }
  lemma PieceBorderB() ensures PlainLine("border-b ") { PlainByMembership("border-b "); }
  lemma PiecePb2() ensures PlainLine("pb-2") { PlainByMembership("pb-2"); }
  lemma PieceTextXl() ensures PlainLine("text-xl ") { PlainByMembership("text-xl "); }
  lemma PieceFontMedium() ensures PlainLine("font-medium ") { PlainByMembership("font-medium "); }
  lemma PieceMb2() ensures PlainLine("mb-2 ") { PlainByMembership("mb-2 "); }
  lemma PieceTextGray600() ensures PlainLine("text-gray-600") { PlainByMembership("text-gray-600"); }
  lemma PieceBgGray100() ensures PlainLine("bg-gray-100 ") { PlainByMembership("bg-gray-100 "); }
  lemma PiecePx2() ensures PlainLine("px-2 ") { PlainByMembership("px-2 "); }
  lemma PiecePy1() ensures PlainLine("py-1 ") { PlainByMembership("py-1 "); }
  lemma PieceRounded() ensures PlainLine("rounded ") { PlainByMembership("rounded "); }
  lemma PieceTextSm() ensures PlainLine("text-sm ") { PlainByMembership("text-sm "); }
  lemma PieceFontMono() ensures PlainLine("font-mono") { PlainByMembership("font-mono"); }
  lemma PieceLiClassQ() ensures PlainLine("<li class=\"") { PlainByMembership("<li class=\""); }
  lemma PieceMl4() ensures PlainLine("ml-4 ") { PlainByMembership("ml-4 "); }
  lemma PieceMb1() ensures PlainLine("mb-1") { PlainByMembership("mb-1"); }
  lemma PieceCloseP() ensures PlainLine("</p>") { PlainByMembership("</p>"); }
  lemma PiecePClassQ() ensures PlainLine("<p class=\"") { PlainByMembership("<p class=\""); }
  lemma PieceStrongClassQ() ensures PlainLine("<strong class=\"") { PlainByMembership("<strong class=\""); }
  lemma PieceFontSemiboldLast() ensures PlainLine("font-semibold") { PlainByMembership("font-semibold"); }
  lemma PieceEmClassQ() ensures PlainLine("<em class=\"") { PlainByMembership("<em class=\""); }
  lemma PieceItalic() ensures PlainLine("italic") { PlainByMembership("italic"); }
  lemma PieceMb4Last() ensures PlainLine("mb-4") { PlainByMembership("mb-4"); }

  lemma Plain4(a: string, b: string, c: string, d: string)
    requires PlainLine(a) && PlainLine(b) && PlainLine(c) && PlainLine(d)
    ensures PlainLine(a + b + c + d)
  {
    PlainConcat(a, b);
    PlainConcat(a + b, c);
    PlainConcat(a + b + c, d);
  }

  lemma Plain6(a: string, b: string, c: string, d: string, e: string, f: string)
    requires PlainLine(a) && PlainLine(b) && PlainLine(c) && PlainLine(d) && PlainLine(e) && PlainLine(f)
    ensures PlainLine(a + b + c + d + e + f)
  {
    PlainConcat(a, b);
    PlainConcat(a + b, c);
    PlainConcat(a + b + c, d);
    PlainConcat(a + b + c + d, e);
    PlainConcat(a + b + c + d + e, f);
  }

  lemma Plain8(a: string, b: string, c: string, d: string, e: string, f: string, g: string, h: string)
    requires PlainLine(a) && PlainLine(b) && PlainLine(c) && PlainLine(d)
    requires PlainLine(e) && PlainLine(f) && PlainLine(g) && PlainLine(h)
    ensures PlainLine(a + b + c + d + e + f + g + h)
  {
    Plain6(a, b, c, d, e, f);
    PlainConcat(a + b + c + d + e + f, g);
    PlainConcat(a + b + c + d + e + f + g, h);
  }

  lemma TagsValid()
    ensures Tags.Valid()
  {
    H1Plain();
    H2Plain();
    H3Plain();
  }
}
