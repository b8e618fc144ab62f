/**
 The regular-expression rewrites that both markdown converters are built
 from (the in-app preview and the HTML/PDF exporter use the same patterns
 with different replacement tags), and the facts about them that the two
 pipelines share: how a whole-line rule acts line by line, and why the
 fenced-code rule can never fire once inline code has been paired.
 */
module MarkdownRules {
  import opened Text

  /** A whole-line rule with the `m` flag. */
  datatype LineRule =
    | Prefixed(prefix: string, open: string, close: string)  // /^P(.*$)/gm -> open $1 close
    | Numbered(open: string, close: string)                  // /^\d+\. (.*$)/gm -> open $1 close
    | NonEmpty(open: string, close: string)                  // /^(.+)$/gm -> open $1 close

  /** Number of leading ASCII digits. */
  function DigitRun(l: string): (n: nat)
    ensures n <= |l|
    ensures forall k :: 0 <= k < n ==> IsDigit(l[k])
    ensures n < |l| ==> !IsDigit(l[n])
    decreases |l|
  {
    if |l| > 0 && IsDigit(l[0]) then 1 + DigitRun(l[1..]) else 0
  }

  /** Length of the `\d+\. ` marker opening the line, if there is one. The
      greedy `\d+` cannot give back digits usefully: a shorter run is
      followed by a digit, not by `.`. */
  function NumberMarker(l: string): (r: Option<nat>)
    ensures r.Some? ==> 3 <= r.value <= |l| && l[r.value - 2..r.value] == ". "
    ensures r.Some? ==> forall k :: 0 <= k < r.value - 2 ==> IsDigit(l[k])
  {
    var n := DigitRun(l);
    if n > 0 && StartsWith(l[n..], ". ") then Some(n + 2) else None
  }

  /** What one rule does to one line (a line holds no terminator). */
  function RewriteLine(rule: LineRule, l: string): string {
    match rule
    case Prefixed(p, o, c) => if StartsWith(l, p) then o + l[|p|..] + c else l
    case Numbered(o, c) =>
      (match NumberMarker(l)
       case Some(m) => o + l[m..] + c
       case None => l)
    case NonEmpty(o, c) => if |l| > 0 then o + l + c else l
  }

  /** The rule applied at every line start: each match begins at a line
      start and runs to the end of that line, so the rewrite acts on each
      line on its own and keeps the terminators. */
  function ApplyLines(s: string, rule: LineRule): string
    decreases |s|
  {
    var e := LineEnd(s);
    if e == |s| then RewriteLine(rule, s)
    else RewriteLine(rule, s[..e]) + [s[e]] + ApplyLines(s[e + 1..], rule)
  }

  function MapLines(ls: seq<string>, rule: LineRule): (r: seq<string>)
    ensures |r| == |ls|
    ensures forall i :: 0 <= i < |ls| ==> r[i] == RewriteLine(rule, ls[i])
  {
    seq(|ls|, i requires 0 <= i < |ls| => RewriteLine(rule, ls[i]))
  }

  /** A line rule rewrites each line and keeps every terminator. */
  lemma {:induction false} ApplyLinesByLines(s: string, rule: LineRule)
    ensures ApplyLines(s, rule) == Unlines(MapLines(Lines(s), rule), Terminators(s))
    decreases |s|
  {
    LinesSplitAtEnd(s);
    var e := LineEnd(s);
    if e < |s| {
      ApplyLinesByLines(s[e + 1..], rule);
      ApplyLinesStep(s, rule);
    }
  }

  /** One line and its terminator in front of text already known to be
      rewritten line by line. */
  lemma ApplyLinesStep(s: string, rule: LineRule)
    requires LineEnd(s) < |s|
    requires ApplyLines(s[LineEnd(s) + 1..], rule)
             == Unlines(MapLines(Lines(s[LineEnd(s) + 1..]), rule), Terminators(s[LineEnd(s) + 1..]))
    ensures ApplyLines(s, rule) == Unlines(MapLines(Lines(s), rule), Terminators(s))
  {
    LinesSplitAtEnd(s);
    var e := LineEnd(s);
    var rest := s[e + 1..];
    var ls := Lines(rest);
    MapLinesCons(s[..e], ls, rule);
    UnlinesCons(RewriteLine(rule, s[..e]), s[e], MapLines(ls, rule), Terminators(rest));
  }

  lemma MapLinesCons(l: string, ls: seq<string>, rule: LineRule)
    ensures MapLines([l] + ls, rule) == [RewriteLine(rule, l)] + MapLines(ls, rule)
  {
    var m := MapLines([l] + ls, rule);
    var r := [RewriteLine(rule, l)] + MapLines(ls, rule);
    forall i | 0 <= i < |r| ensures m[i] == r[i] {
      if i > 0 {
        assert ([l] + ls)[i] == ls[i - 1];
      }
    }
  }

  lemma ApplyLinesSingle(s: string, rule: LineRule)
    requires forall k :: 0 <= k < |s| ==> !IsTerminator(s[k])
    ensures ApplyLines(s, rule) == RewriteLine(rule, s)
  {
  }

  /** A rule whose tags are single lines keeps a line a single line. */
  lemma RewriteLineOneLine(rule: LineRule, l: string)
    requires OneLine(rule.open) && OneLine(rule.close) && OneLine(l)
    ensures OneLine(RewriteLine(rule, l))
  {
    match rule
    case Prefixed(p, o, c) =>
      if StartsWith(l, p) {
        OneLineJoin(o, l[|p|..], c, []);
        assert o + l[|p|..] + c + [] == RewriteLine(rule, l);
      }
    case Numbered(o, c) =>
      if NumberMarker(l).Some? {
        var m := NumberMarker(l).value;
        OneLineJoin(o, l[m..], c, []);
        assert o + l[m..] + c + [] == RewriteLine(rule, l);
      }
    case NonEmpty(o, c) =>
      if |l| > 0 {
        OneLineJoin(o, l, c, []);
        assert o + l + c + [] == RewriteLine(rule, l);
      }
  }

  /** A rule applied to text already known to be single lines joined by
      terminators rewrites exactly those lines. */
  lemma ApplyLinesOnUnlines(ls: seq<string>, ts: string, rule: LineRule)
    requires |ls| == |ts| + 1 && AllOneLine(ls) && AllTerminators(ts)
    ensures ApplyLines(Unlines(ls, ts), rule) == Unlines(MapLines(ls, rule), ts)
  {
    ApplyLinesByLines(Unlines(ls, ts), rule);
    LinesOfUnlines(ls, ts);
  }

  // ---------------------------------------------------------------------
  // Line-local rewrite chains
  // ---------------------------------------------------------------------

  /** One rewrite of a converter that never looks past a line end: a
      whole-line rule, or lazy pairing of a delimiter. */
  datatype Stage =
    | Rule(rule: LineRule)
    | Pair(delim: string, open: string, close: string)

  /** The stage writes no terminator and its delimiter is a non-empty
      single line. */
  predicate LineLocal(st: Stage) {
    match st
    case Rule(r) => OneLine(r.open) && OneLine(r.close)
    case Pair(d, o, c) => |d| > 0 && OneLine(d) && OneLine(o) && OneLine(c)
  }

  predicate AllLineLocal(sts: seq<Stage>) {
    forall i :: 0 <= i < |sts| ==> LineLocal(sts[i])
  }

  function Step(st: Stage, s: string): string
    requires LineLocal(st)
  {
    match st
    case Rule(r) => ApplyLines(s, r)
    case Pair(d, o, c) => Pairs(s, d, o, c)
  }

  /** The stages applied in order. */
  function Run(sts: seq<Stage>, s: string): string
    requires AllLineLocal(sts)
    decreases |sts|
  {
    if |sts| == 0 then s else Run(sts[1..], Step(sts[0], s))
  }

  /** Each line put through the stages on its own. */
  function RunLines(sts: seq<Stage>, ls: seq<string>): (r: seq<string>)
    requires AllLineLocal(sts)
    ensures |r| == |ls|
    ensures forall i :: 0 <= i < |ls| ==> r[i] == Run(sts, ls[i])
  {
    seq(|ls|, i requires 0 <= i < |ls| => Run(sts, ls[i]))
  }

  /** Each line put through one stage on its own. */
  function StepLines(st: Stage, ls: seq<string>): (r: seq<string>)
    requires LineLocal(st)
    ensures |r| == |ls|
    ensures forall i :: 0 <= i < |ls| ==> r[i] == Step(st, ls[i])
  {
    seq(|ls|, i requires 0 <= i < |ls| => Step(st, ls[i]))
  }

  /** A line-local stage keeps a line a single line. */
  lemma StepOneLine(st: Stage, l: string)
    requires LineLocal(st) && OneLine(l)
    ensures OneLine(Step(st, l))
  {
    match st
    case Rule(r) =>
      ApplyLinesSingle(l, r);
      RewriteLineOneLine(r, l);
    case Pair(d, o, c) =>
      PairsOneLine(l, d, o, c);
  }

  lemma {:induction false} RunOneLine(sts: seq<Stage>, l: string)
    requires AllLineLocal(sts) && OneLine(l)
    ensures OneLine(Run(sts, l))
    decreases |sts|
  {
    if |sts| > 0 {
      StepOneLine(sts[0], l);
      RunOneLine(sts[1..], Step(sts[0], l));
    }
  }

  /** One line-local stage applied to joined lines acts on each line and
      keeps every terminator. */
  lemma StepByLines(st: Stage, ls: seq<string>, ts: string)
    requires LineLocal(st) && |ls| == |ts| + 1 && AllOneLine(ls) && AllTerminators(ts)
    ensures Step(st, Unlines(ls, ts)) == Unlines(StepLines(st, ls), ts)
    ensures AllOneLine(StepLines(st, ls))
  {
    if st.Rule? {
      RuleByLines(st.rule, ls, ts);
    } else {
      PairByLines(st, ls, ts);
    }
    StepLinesOneLine(st, ls);
  }

  lemma StepLinesOneLine(st: Stage, ls: seq<string>)
    requires LineLocal(st) && AllOneLine(ls)
    ensures AllOneLine(StepLines(st, ls))
  {
    forall i | 0 <= i < |ls| ensures OneLine(StepLines(st, ls)[i]) {
      StepOneLine(st, ls[i]);
    }
  }

  lemma PairByLines(st: Stage, ls: seq<string>, ts: string)
    requires st.Pair? && LineLocal(st) && |ls| == |ts| + 1 && AllOneLine(ls) && AllTerminators(ts)
    ensures Pairs(Unlines(ls, ts), st.delim, st.open, st.close) == Unlines(StepLines(st, ls), ts)
  {
    PairsByLines(ls, ts, st.delim, st.open, st.close);
    assert PairLines(ls, st.delim, st.open, st.close) == StepLines(st, ls);
  }

  lemma RuleByLines(r: LineRule, ls: seq<string>, ts: string)
    requires LineLocal(Rule(r)) && |ls| == |ts| + 1 && AllOneLine(ls) && AllTerminators(ts)
    ensures ApplyLines(Unlines(ls, ts), r) == Unlines(StepLines(Rule(r), ls), ts)
  {
    ApplyLinesOnUnlines(ls, ts, r);
    forall i | 0 <= i < |ls| ensures MapLines(ls, r)[i] == StepLines(Rule(r), ls)[i] {
      ApplyLinesSingle(ls[i], r);
    }
    assert MapLines(ls, r) == StepLines(Rule(r), ls);
  }

  /** A chain of line-local stages applied to a whole text is the chain
      applied to each line on its own, with the terminators kept. */
  lemma {:induction false} RunByLines(sts: seq<Stage>, ls: seq<string>, ts: string)
    requires AllLineLocal(sts) && |ls| == |ts| + 1 && AllOneLine(ls) && AllTerminators(ts)
    ensures Run(sts, Unlines(ls, ts)) == Unlines(RunLines(sts, ls), ts)
    ensures AllOneLine(RunLines(sts, ls))
    decreases |sts|
  {
    if |sts| == 0 {
      assert RunLines(sts, ls) == ls;
    } else {
      var st, rest := sts[0], sts[1..];
      var ks := StepLines(st, ls);
      StepByLines(st, ls, ts);
      RunByLines(rest, ks, ts);
      assert RunLines(rest, ks) == RunLines(sts, ls);
    }
  }

  /** Two chains one after the other. */
  lemma {:induction false} RunAppend(a: seq<Stage>, b: seq<Stage>, s: string)
    requires AllLineLocal(a) && AllLineLocal(b)
    ensures AllLineLocal(a + b) && Run(a + b, s) == Run(b, Run(a, s))
    decreases |a|
  {
    if |a| == 0 {
      assert a + b == b;
    } else {
      assert (a + b)[1..] == a[1..] + b;
      RunAppend(a[1..], b, Step(a[0], s));
    }
  }

  lemma RunTwo(x: Stage, y: Stage, s: string)
    requires LineLocal(x) && LineLocal(y)
    ensures AllLineLocal([x, y]) && Run([x, y], s) == Step(y, Step(x, s))
  {
    assert [x, y][1..] == [y];
    assert [y][1..] == [];
    assert Run([y], Step(x, s)) == Run([], Step(y, Step(x, s)));
  }

  lemma RunThree(x: Stage, y: Stage, z: Stage, s: string)
    requires LineLocal(x) && LineLocal(y) && LineLocal(z)
    ensures AllLineLocal([x, y, z]) && Run([x, y, z], s) == Step(z, Step(y, Step(x, s)))
  {
    assert [x, y, z][1..] == [y, z];
    RunTwo(y, z, Step(x, s));
  }

  /** The chain applied to a whole text, seen line by line: the lines of
      the result are the lines of the input each put through the chain,
      and the terminators are the same. */
  lemma DocumentByLines(sts: seq<Stage>, s: string)
    requires AllLineLocal(sts)
    ensures Run(sts, s) == Unlines(RunLines(sts, Lines(s)), Terminators(s))
    ensures Lines(Run(sts, s)) == RunLines(sts, Lines(s))
    ensures Terminators(Run(sts, s)) == Terminators(s)
  {
    LinesRoundTrip(s);
    LinesOneLine(s);
    RunByLines(sts, Lines(s), Terminators(s));
    LinesOfUnlines(RunLines(sts, Lines(s)), Terminators(s));
  }

  /** JavaScript `s.replace(/```([\s\S]*?)```/g, open + "$1" + close)`:
      a fence pairs with the nearest following fence, across lines. */
  function Fence(s: string, open: string, close: string): string
    decreases |s|
  {
    if |s| == 0 then []
    else if StartsWith(s, "```") then
      match IndexOf(s, "```", 3)
      case Some(k) => open + s[3..k] + close + Fence(s[k + 3..], open, close)
      case None => [s[0]] + Fence(s[1..], open, close)
    else [s[0]] + Fence(s[1..], open, close)
  }

  // ---------------------------------------------------------------------
  // Backticks after inline-code pairing
  // ---------------------------------------------------------------------

  predicate Lacks(s: string, c: char) {
    forall i :: 0 <= i < |s| ==> s[i] != c
  }

  /** No line holds more than one backtick; `seen` says whether the line
      being scanned already had one. */
  predicate OneTickPerLine(s: string, seen: bool)
    decreases |s|
  {
    |s| == 0 ||
    if IsTerminator(s[0]) then OneTickPerLine(s[1..], false)
    else if s[0] == '`' then !seen && OneTickPerLine(s[1..], true)
    else OneTickPerLine(s[1..], seen)
  }

  /** No two backticks side by side, so no "```" anywhere. */
  predicate NoDoubleTick(s: string) {
    forall i :: 0 <= i < |s| - 1 ==> !(s[i] == '`' && s[i + 1] == '`')
  }

  lemma {:induction false} OneTickPrefix(x: string, y: string, seen: bool)
    requires Lacks(x, '`')
    requires OneTickPerLine(y, seen)
    ensures OneTickPerLine(x + y, seen)
    decreases |x|
  {
    if |x| > 0 {
      assert (x + y)[1..] == x[1..] + y;
      if IsTerminator(x[0]) {
        OneTickWeaken(y, seen);
      }
      OneTickPrefix(x[1..], y, if IsTerminator(x[0]) then false else seen);
    } else {
      assert x + y == y;
    }
  }

  lemma {:induction false} OneTickWeaken(y: string, seen: bool)
    requires OneTickPerLine(y, seen)
    ensures OneTickPerLine(y, false)
    decreases |y|
  {
    if |y| > 0 && !IsTerminator(y[0]) && y[0] != '`' {
      OneTickWeaken(y[1..], seen);
    }
  }

  /** After pairing inline code, every line keeps at most one backtick. */
  lemma {:induction false} InlineCodeLeavesOneTickPerLine(t: string, open: string, close: string)
    requires Lacks(open, '`') && Lacks(close, '`')
    ensures OneTickPerLine(Pairs(t, "`", open, close), false)
    decreases |t|, 1
  {
    if |t| == 0 {
    } else if StartsWith(t, "`") {
      match CloseAt(t, 1, "`")
      case Some(k) =>
        var mid := t[1..k];
        forall i | 0 <= i < |mid| ensures mid[i] != '`' {
          assert !OccursAt(t, "`", i + 1);
          assert t[i + 1..i + 2] == [t[i + 1]];
        }
        InlineCodeLeavesOneTickPerLine(t[k + 1..], open, close);
        var x := open + mid + close;
        assert Lacks(x, '`');
        OneTickPrefix(x, Pairs(t[k + 1..], "`", open, close), false);
        assert open + mid + close + Pairs(t[k + 1..], "`", open, close)
            == x + Pairs(t[k + 1..], "`", open, close);
      case None =>
        var u := t[1..];
        forall k | 0 <= k < LineEnd(u) ensures u[k] != '`' {
          assert t[1..][..] == u;
          assert !OccursAt(t, "`", k + 1);
          assert t[k + 1..k + 2] == [t[k + 1]];
        }
        RestOfLineTickFree(u, open, close);
    } else {
      InlineCodeLeavesOneTickPerLine(t[1..], open, close);
    }
  }

  lemma {:induction false} RestOfLineTickFree(u: string, open: string, close: string)
    requires Lacks(open, '`') && Lacks(close, '`')
    requires forall k :: 0 <= k < LineEnd(u) ==> u[k] != '`'
    ensures OneTickPerLine(Pairs(u, "`", open, close), true)
    decreases |u|, 0
  {
    if |u| == 0 {
    } else if IsTerminator(u[0]) {
      assert !StartsWith(u, "`");
      InlineCodeLeavesOneTickPerLine(u[1..], open, close);
    } else {
      assert u[0] != '`';
      assert !StartsWith(u, "`");
      assert LineEnd(u[1..]) == LineEnd(u) - 1;
      RestOfLineTickFree(u[1..], open, close);
    }
  }

  /** Inline-code pairing with tags free of backticks leaves no two
      adjacent backticks. */
  lemma CodePairsNoDouble(t: string, open: string, close: string)
    requires Lacks(open, '`') && Lacks(close, '`')
    ensures NoDoubleTick(Pairs(t, "`", open, close))
  {
    InlineCodeLeavesOneTickPerLine(t, open, close);
    OneTickNoDouble(Pairs(t, "`", open, close), false);
  }

  lemma {:induction false} OneTickNoDouble(s: string, seen: bool)
    requires OneTickPerLine(s, seen)
    ensures NoDoubleTick(s)
    decreases |s|
  {
    if |s| > 0 {
      var next := if IsTerminator(s[0]) then false else if s[0] == '`' then true else seen;
      OneTickNoDouble(s[1..], next);
      if s[0] == '`' && |s| > 1 {
        assert s[1..][0] == s[1];
      }
      forall i | 0 <= i < |s| - 1 ensures !(s[i] == '`' && s[i + 1] == '`') {
        if i > 0 {
          assert s[i] == s[1..][i - 1] && s[i + 1] == s[1..][i];
        }
      }
    }
  }

  lemma NoDoubleSlice(s: string, i: nat, j: nat)
    requires NoDoubleTick(s) && i <= j <= |s|
    ensures NoDoubleTick(s[i..j])
  {
    forall k | 0 <= k < |s[i..j]| - 1 ensures !(s[i..j][k] == '`' && s[i..j][k + 1] == '`') {
      assert s[i..j][k] == s[i + k] && s[i..j][k + 1] == s[i + k + 1];
    }
  }

  lemma NoDoubleConcat(a: string, b: string)
    requires NoDoubleTick(a) && NoDoubleTick(b)
    requires |a| == 0 || |b| == 0 || a[|a| - 1] != '`' || b[0] != '`'
    ensures NoDoubleTick(a + b)
  {
    forall i | 0 <= i < |a + b| - 1 ensures !((a + b)[i] == '`' && (a + b)[i + 1] == '`') {
      if i + 1 < |a| {
        assert (a + b)[i] == a[i] && (a + b)[i + 1] == a[i + 1];
      } else if i >= |a| {
        assert (a + b)[i] == b[i - |a|] && (a + b)[i + 1] == b[i + 1 - |a|];
      }
    }
  }

  lemma LacksConcat(a: string, b: string, c: char)
    requires Lacks(a, c) && Lacks(b, c)
    ensures Lacks(a + b, c)
  {
    assert forall k :: |a| <= k < |a + b| ==> (a + b)[k] == b[k - |a|];
  }

  lemma LacksNoDouble(s: string)
    requires Lacks(s, '`')
    ensures NoDoubleTick(s)
  {
  }

  /** Wrapping a line in tick-free tags keeps it free of double ticks. */
  lemma WrapNoDouble(o: string, x: string, c: string)
    requires Lacks(o, '`') && Lacks(c, '`') && NoDoubleTick(x)
    ensures NoDoubleTick(o + x + c)
  {
    NoDoubleConcat(o, x);
    NoDoubleConcat(o + x, c);
  }

  predicate TickFreeTags(rule: LineRule) {
    Lacks(rule.open, '`') && Lacks(rule.close, '`')
  }

  lemma RewriteLineNoDouble(rule: LineRule, l: string)
    requires TickFreeTags(rule) && NoDoubleTick(l)
    ensures NoDoubleTick(RewriteLine(rule, l))
  {
    match rule
    case Prefixed(p, o, c) =>
      if StartsWith(l, p) {
        NoDoubleSlice(l, |p|, |l|);
        WrapNoDouble(o, l[|p|..], c);
      }
    case Numbered(o, c) =>
      if NumberMarker(l).Some? {
        var m := NumberMarker(l).value;
        NoDoubleSlice(l, m, |l|);
        WrapNoDouble(o, l[m..], c);
      }
    case NonEmpty(o, c) =>
      if |l| > 0 {
        WrapNoDouble(o, l, c);
      }
  }

  /** Line rules with tick-free tags never bring two backticks together. */
  lemma {:induction false} ApplyLinesNoDouble(s: string, rule: LineRule)
    requires TickFreeTags(rule) && NoDoubleTick(s)
    ensures NoDoubleTick(ApplyLines(s, rule))
    decreases |s|
  {
    var e := LineEnd(s);
    if e < |s| {
      NoDoubleSuffix(s, e + 1);
      ApplyLinesNoDouble(s[e + 1..], rule);
      ApplyLinesNoDoubleStep(s, rule);
    } else {
      assert s[..e] == s;
      RewriteLineNoDouble(rule, s);
    }
  }

  lemma ApplyLinesNoDoubleStep(s: string, rule: LineRule)
    requires TickFreeTags(rule) && NoDoubleTick(s) && LineEnd(s) < |s|
    requires NoDoubleTick(ApplyLines(s[LineEnd(s) + 1..], rule))
    ensures NoDoubleTick(ApplyLines(s, rule))
  {
    var e := LineEnd(s);
    NoDoublePrefix(s, e);
    RewriteLineNoDouble(rule, s[..e]);
    NoDoubleAround(RewriteLine(rule, s[..e]), s[e], ApplyLines(s[e + 1..], rule));
  }

  lemma NoDoublePrefix(s: string, e: nat)
    requires NoDoubleTick(s) && e <= |s|
    ensures NoDoubleTick(s[..e])
  {
    assert forall k :: 0 <= k < e ==> s[..e][k] == s[k];
  }

  lemma NoDoubleSuffix(s: string, b: nat)
    requires NoDoubleTick(s) && b <= |s|
    ensures NoDoubleTick(s[b..])
  {
    assert forall k :: 0 <= k < |s| - b ==> s[b..][k] == s[b + k];
  }

  /** A character other than a backtick between two strings without a
      double backtick. */
  lemma NoDoubleAround(head: string, t: char, tail: string)
    requires NoDoubleTick(head) && NoDoubleTick(tail) && t != '`'
    ensures NoDoubleTick(head + [t] + tail)
  {
    NoDoubleConcat(head, [t]);
    NoDoubleConcat(head + [t], tail);
  }

  /** A global replacement by non-empty tick-free text brings no two
      backticks together, even when it removes the characters between them. */
  lemma {:induction false} ReplaceAllNoDouble(s: string, pat: string, rep: string)
    requires |pat| > 0 && |rep| > 0 && Lacks(rep, '`') && NoDoubleTick(s)
    ensures NoDoubleTick(ReplaceAll(s, pat, rep))
    ensures |ReplaceAll(s, pat, rep)| > 0 && ReplaceAll(s, pat, rep)[0] == '`' ==> |s| > 0 && s[0] == '`'
    decreases |s|
  {
    if |s| == 0 {
    } else if StartsWith(s, pat) {
      NoDoubleSlice(s, |pat|, |s|);
      ReplaceAllNoDouble(s[|pat|..], pat, rep);
      NoDoubleConcat(rep, ReplaceAll(s[|pat|..], pat, rep));
    } else {
      NoDoubleSlice(s, 1, |s|);
      ReplaceAllNoDouble(s[1..], pat, rep);
      NoDoubleConcat([s[0]], ReplaceAll(s[1..], pat, rep));
    }
  }

  /** The fence rule has nothing to match when no two backticks touch. */
  lemma {:induction false} FenceIdle(s: string, open: string, close: string)
    requires NoDoubleTick(s)
    ensures Fence(s, open, close) == s
    decreases |s|
  {
    if |s| > 0 {
      assert !StartsWith(s, "```") by {
        if |s| >= 3 { assert s[..3][0] == s[0] && s[..3][1] == s[1]; }
      }
      NoDoubleSlice(s, 1, |s|);
      FenceIdle(s[1..], open, close);
      assert s == [s[0]] + s[1..];
    }
  }

  // ---------------------------------------------------------------------
  // The three heading rules
  // ---------------------------------------------------------------------

  function HeadingMarker(n: nat): string
    requires 1 <= n <= 3
  {
    if n == 1 then "# " else if n == 2 then "## " else "### "
  }

  function LevelDigit(n: nat): char
    requires 1 <= n <= 3
  {
    if n == 1 then '1' else if n == 2 then '2' else '3'
  }

  function HeadingClose(n: nat): string
    requires 1 <= n <= 3
  {
    "</h" + [LevelDigit(n)] + ">"
  }

  /** A single-line tag: it opens with '<'. */
  predicate TagLike(o: string) {
    |o| > 0 && o[0] == '<' && forall k :: 0 <= k < |o| ==> !IsTerminator(o[k])
  }

  /** The opening tags a converter writes for `#`, `##` and `###` lines
      (the closing tags are always `</h1>`, `</h2>`, `</h3>`). */
  datatype HeadingTags = HeadingTags(h1: string, h2: string, h3: string) {
    function Open(n: nat): string
      requires 1 <= n <= 3
    {
      if n == 1 then h1 else if n == 2 then h2 else h3
    }

    predicate Valid() {
      TagLike(h1) && TagLike(h2) && TagLike(h3)
    }
  }

  function HeadingRule(tags: HeadingTags, n: nat): LineRule
    requires 1 <= n <= 3
  {
    Prefixed(HeadingMarker(n), tags.Open(n), HeadingClose(n))
  }

  /** Rules 1-3 of both converters: `#`, then `##`, then `###`. */
  function ApplyHeadings(md: string, tags: HeadingTags): string {
    ApplyLines(ApplyLines(ApplyLines(md, HeadingRule(tags, 1)), HeadingRule(tags, 2)), HeadingRule(tags, 3))
  }

  /** Rules 1-3 as a chain of line-local stages. */
  function HeadingStages(tags: HeadingTags): seq<Stage> {
    [Rule(HeadingRule(tags, 1)), Rule(HeadingRule(tags, 2)), Rule(HeadingRule(tags, 3))]
  }

  lemma HeadingStagesRun(tags: HeadingTags, s: string)
    requires tags.Valid()
    ensures AllLineLocal(HeadingStages(tags)) && Run(HeadingStages(tags), s) == ApplyHeadings(s, tags)
  {
    assert OneLine(HeadingClose(1)) && OneLine(HeadingClose(2)) && OneLine(HeadingClose(3));
    RunThree(Rule(HeadingRule(tags, 1)), Rule(HeadingRule(tags, 2)), Rule(HeadingRule(tags, 3)), s);
  }

  /** A line opening with one, two or three `#` and a space becomes that
      level's heading; the other two rules leave it alone (a longer run of
      `#` does not match a shorter marker, and the tag the first rule
      writes starts with '<'). */
  lemma HeadingLine(n: nat, t: string, tags: HeadingTags)
    requires 1 <= n <= 3 && OneLine(t) && tags.Valid()
    ensures ApplyHeadings(HeadingMarker(n) + t, tags) == tags.Open(n) + t + HeadingClose(n)
  {
    var m, o, c := HeadingMarker(n), tags.Open(n), HeadingClose(n);
    assert OneLine(m) && OneLine(o) && OneLine(c);
    OneLineConcat(m, t);
    OneLineConcat(o, t);
    OneLineConcat(o + t, c);
    MarkerSplit(m, t);
    if n == 1 {
      HeadingLevelOne(m + t, o + t + c, tags);
    } else if n == 2 {
      HeadingLevelTwo(m + t, o + t + c, tags);
    } else {
      HeadingLevelThree(m + t, o + t + c, tags);
    }
  }

  lemma OneLineConcat(a: string, b: string)
    requires OneLine(a) && OneLine(b)
    ensures OneLine(a + b)
  {
    assert forall k :: |a| <= k < |a + b| ==> (a + b)[k] == b[k - |a|];
  }

  /** A line made of a marker and a text starts with the marker, and the
      text follows it. */
  lemma MarkerSplit(m: string, t: string)
    ensures StartsWith(m + t, m) && (m + t)[|m|..] == t
  {
    assert (m + t)[..|m|] == m;
  }

  lemma HeadingLevelOne(s: string, h: string, tags: HeadingTags)
    requires StartsWith(s, "# ") && h == tags.h1 + s[2..] + "</h1>"
    requires OneLine(s) && OneLine(h) && tags.Valid()
    ensures ApplyHeadings(s, tags) == h
  {
    var r1, r2, r3 := HeadingRule(tags, 1), HeadingRule(tags, 2), HeadingRule(tags, 3);
    assert r1 == Prefixed("# ", tags.h1, "</h1>");
    ApplyLinesSingle(s, r1);
    assert ApplyLines(s, r1) == h;
    NotPrefixedLine(h, r2);
    NotPrefixedLine(h, r3);
  }

  /** A line is left alone by a prefix rule whose prefix starts with a
      different character. */
  lemma NotPrefixedLine(h: string, r: LineRule)
    requires OneLine(h) && |h| > 0
    requires r.Prefixed? && |r.prefix| > 0 && r.prefix[0] != h[0]
    ensures ApplyLines(h, r) == h
  {
    ApplyLinesSingle(h, r);
    assert !StartsWith(h, r.prefix) by {
      if |r.prefix| <= |h| { assert h[..|r.prefix|][0] == h[0]; }
    }
  }

  lemma HeadingLevelTwo(s: string, h: string, tags: HeadingTags)
    requires StartsWith(s, "## ") && h == tags.h2 + s[3..] + "</h2>"
    requires OneLine(s) && OneLine(h) && tags.Valid()
    ensures ApplyHeadings(s, tags) == h
  {
    var r1, r2, r3 := HeadingRule(tags, 1), HeadingRule(tags, 2), HeadingRule(tags, 3);
    ApplyLinesSingle(s, r1);
    assert s[..2][1] == s[1] == '#';
    assert ApplyLines(s, r1) == s;
    assert r2 == Prefixed("## ", tags.h2, "</h2>");
    ApplyLinesSingle(s, r2);
    assert ApplyLines(s, r2) == h;
    NotPrefixedLine(h, r3);
  }

  lemma HeadingLevelThree(s: string, h: string, tags: HeadingTags)
    requires StartsWith(s, "### ") && h == tags.h3 + s[4..] + "</h3>"
    requires OneLine(s)
    ensures ApplyHeadings(s, tags) == h
  {
    ApplyLinesSingle(s, HeadingRule(tags, 1));
    assert s[..2][1] == s[1] == '#';
    ApplyLinesSingle(s, HeadingRule(tags, 2));
    assert s[..3][2] == s[2] == '#';
    ApplyLinesSingle(s, HeadingRule(tags, 3));
  }

  /** A line that does not start with a digit has no list number. */
  lemma NoNumberMarker(l: string)
    requires |l| > 0 && !IsDigit(l[0])
    ensures NumberMarker(l).None?
  {
  }

  /** `d. t` with a non-empty digit run `d` carries the marker `d. `. */
  lemma NumberMarkerOf(d: string, t: string)
    requires |d| > 0 && forall k :: 0 <= k < |d| ==> IsDigit(d[k])
    ensures NumberMarker(d + ". " + t) == Some(|d| + 2)
  {
    var l := d + ". " + t;
    DigitRunOf(d, ". " + t);
    assert l == d + (". " + t);
    assert l[|d|..] == ". " + t;
  }

  lemma {:induction false} DigitRunOf(d: string, rest: string)
    requires forall k :: 0 <= k < |d| ==> IsDigit(d[k])
    requires |rest| > 0 && !IsDigit(rest[0])
    ensures DigitRun(d + rest) == |d|
    decreases |d|
  {
    if |d| > 0 {
      assert (d + rest)[1..] == d[1..] + rest;
      DigitRunOf(d[1..], rest);
    } else {
      assert d + rest == rest;
    }
  }

  /** One line with no emphasis or code markers: text every inline rule
      leaves alone. */
  predicate PlainLine(t: string) {
    OneLine(t) && Lacks(t, '*') && Lacks(t, '`')
  }

  /** `PlainLine` from membership facts, which the verifier can settle on
      a concatenation of short string literals. */
  lemma PlainByMembership(s: string)
    requires '\n' !in s && '\r' !in s && '\U{2028}' !in s && '\U{2029}' !in s
    requires '*' !in s && '`' !in s
    ensures PlainLine(s)
  {
  }

  lemma PlainConcat(a: string, b: string)
    requires PlainLine(a) && PlainLine(b)
    ensures PlainLine(a + b)
  {
    assert forall k :: |a| <= k < |a + b| ==> (a + b)[k] == b[k - |a|];
  }

}

