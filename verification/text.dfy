/**
 Plain text kernels shared by the markdown rewriters, the repository
 analysis and the prompt builders: literal search, split/join,
 global replacement, line structure and the lazy "delimiter pair" scan
 that the inline markdown rules perform.

 Strings are `seq<char>`; a `char` is one Unicode scalar value.
 */
module Text {

  datatype Option<+T> = None | Some(value: T) {
    /** The wrapped value, or `default` when there is none. */
    function GetOr(default: T): T {
      match this
      case Some(v) => v
      case None => default
    }
  }

  /** The outcome of an operation that can raise: the value, or the
      message of the exception. */
  datatype Result<+T> = Success(value: T) | Failure(error: string)

  // ---------------------------------------------------------------------
  // Characters
  // ---------------------------------------------------------------------

  /** The characters JavaScript treats as line terminators: `.` does not
      match them and, under the `m` flag, `^`/`$` match next to them. */
  predicate IsTerminator(c: char) {
    c == '\n' || c == '\r' || c == '\U{2028}' || c == '\U{2029}'
  }

  predicate IsDigit(c: char) {
    '0' <= c <= '9'
  }

  /** Python's `str.isspace` for the characters `str.strip()` removes. */
  predicate IsPySpace(c: char) {
    c == ' ' || c == '\t' || c == '\n' || c == '\r' || c == '\U{000B}' || c == '\U{000C}'
    || ('\U{001C}' <= c <= '\U{001F}') || c == '\U{0085}' || c == '\U{00A0}' || c == '\U{1680}'
    || ('\U{2000}' <= c <= '\U{200A}') || c == '\U{2028}' || c == '\U{2029}' || c == '\U{202F}'
    || c == '\U{205F}' || c == '\U{3000}'
  }

  function UpperChar(c: char): char {
    if 'a' <= c <= 'z' then (c as int - 32) as char else c
  }

  function LowerChar(c: char): char {
    if 'A' <= c <= 'Z' then (c as int + 32) as char else c
  }

  /** Case mapping restricted to ASCII letters. */
  function Upper(s: string): (r: string)
    ensures |r| == |s|
    ensures forall i :: 0 <= i < |s| ==> r[i] == UpperChar(s[i])
  {
    seq(|s|, i requires 0 <= i < |s| => UpperChar(s[i]))
  }

  function Lower(s: string): (r: string)
    ensures |r| == |s|
    ensures forall i :: 0 <= i < |s| ==> r[i] == LowerChar(s[i])
  {
    seq(|s|, i requires 0 <= i < |s| => LowerChar(s[i]))
  }

  // ---------------------------------------------------------------------
  // Literal search
  // ---------------------------------------------------------------------

  predicate StartsWith(s: string, p: string) {
    |p| <= |s| && s[..|p|] == p
  }

  /** `pat` occurs in `s` starting at index `i`. */
  predicate OccursAt(s: string, pat: string, i: int) {
    0 <= i && i + |pat| <= |s| && s[i..i + |pat|] == pat
  }

  /** First occurrence of `pat` at an index `>= from`. */
  function IndexOf(s: string, pat: string, from: nat): (r: Option<nat>)
    requires |pat| > 0
    ensures r.Some? ==> from <= r.value && OccursAt(s, pat, r.value)
    ensures r.Some? ==> forall k :: from <= k < r.value ==> !OccursAt(s, pat, k)
    ensures r.None? ==> forall k :: from <= k ==> !OccursAt(s, pat, k)
    decreases |s| - from
  {
    if from + |pat| > |s| then None
    else if OccursAt(s, pat, from) then Some(from)
    else IndexOf(s, pat, from + 1)
  }

  /** Last occurrence of `pat` at an index `>= from`. */
  function LastIndexFrom(s: string, pat: string, from: nat): (r: Option<nat>)
    requires |pat| > 0
    ensures r.Some? ==> from <= r.value && OccursAt(s, pat, r.value)
    ensures r.Some? ==> forall k :: r.value < k ==> !OccursAt(s, pat, k)
    ensures r.None? ==> forall k :: from <= k ==> !OccursAt(s, pat, k)
    decreases |s| - from
  {
    if from + |pat| > |s| then None
    else
      match LastIndexFrom(s, pat, from + 1)
      case Some(k) => Some(k)
      case None => if OccursAt(s, pat, from) then Some(from) else None
  }

  /** An occurrence at `k` means the search from `from` finds one no later. */
  lemma FoundBefore(s: string, pat: string, from: nat, k: nat)
    requires |pat| > 0 && from <= k && OccursAt(s, pat, k)
    ensures IndexOf(s, pat, from).Some? && IndexOf(s, pat, from).value <= k
  {
  }

  /** An occurrence at `k` means the backward search down to `from` finds one. */
  lemma FoundLast(s: string, pat: string, from: nat, k: nat)
    requires |pat| > 0 && from <= k && OccursAt(s, pat, k)
    ensures LastIndexFrom(s, pat, from).Some?
  {
  }

  /** Python's `pat in s`. */
  predicate Contains(s: string, pat: string)
    requires |pat| > 0
  {
    IndexOf(s, pat, 0).Some?
  }

  lemma ContainsIff(s: string, pat: string)
    requires |pat| > 0
    ensures Contains(s, pat) <==> exists i :: OccursAt(s, pat, i)
  {
    if exists i :: OccursAt(s, pat, i) {
      var i :| OccursAt(s, pat, i);
      assert 0 <= i;
    }
  }
  /** `pat` occurs somewhere in `s`. */
  ghost predicate Within(s: string, pat: string) {
    exists i :: OccursAt(s, pat, i)
  }

  lemma WithinMiddle(a: string, b: string, c: string)
    ensures Within(a + b + c, b)
  {
    assert (a + b + c)[|a|..|a| + |b|] == b;
    assert OccursAt(a + b + c, b, |a|);
  }

  /** Every line of a joined list occurs in the join. */
  lemma {:induction false} WithinJoin(xs: seq<string>, i: nat, sep: string)
    requires i < |xs|
    ensures Within(Join(xs, sep), xs[i])
    decreases |xs|
  {
    if |xs| == 1 {
      WithinFront(xs[0], []);
      assert xs[0] + [] == Join(xs, sep);
    } else if i == 0 {
      WithinFront(xs[0], sep + Join(xs[1..], sep));
      assert xs[0] + (sep + Join(xs[1..], sep)) == Join(xs, sep);
    } else {
      WithinJoin(xs[1..], i - 1, sep);
      assert xs[1..][i - 1] == xs[i];
      WithinAfter(xs[0] + sep, Join(xs[1..], sep), xs[i]);
      assert Join(xs, sep) == xs[0] + sep + Join(xs[1..], sep);
    }
  }

  lemma WithinFront(a: string, b: string)
    ensures Within(a + b, a)
  {
    assert (a + b)[0..|a|] == a;
    assert OccursAt(a + b, a, 0);
  }

  /** An occurrence survives putting text in front. */
  lemma WithinAfter(pre: string, s: string, pat: string)
    requires Within(s, pat)
    ensures Within(pre + s, pat)
  {
    var j :| OccursAt(s, pat, j);
    assert (pre + s)[|pre| + j..|pre| + j + |pat|] == s[j..j + |pat|];
    assert OccursAt(pre + s, pat, |pre| + j);
  }


  // ---------------------------------------------------------------------
  // Global literal replacement, split and join
  // ---------------------------------------------------------------------

  /** JavaScript `s.replace(/pat/g, rep)` for a literal pattern: matches
      are found left to right and do not overlap. */
  function ReplaceAll(s: string, pat: string, rep: string): string
    requires |pat| > 0
    decreases |s|
  {
    if |s| == 0 then []
    else if StartsWith(s, pat) then rep + ReplaceAll(s[|pat|..], pat, rep)
    else [s[0]] + ReplaceAll(s[1..], pat, rep)
  }

  /** Number of non-overlapping occurrences, found left to right. */
  function Count(s: string, pat: string): nat
    requires |pat| > 0
    decreases |s|
  {
    if |s| == 0 then 0
    else if StartsWith(s, pat) then 1 + Count(s[|pat|..], pat)
    else Count(s[1..], pat)
  }

  /** JavaScript `s.split(sep)` for a non-empty literal separator. */
  function Split(s: string, sep: string): (r: seq<string>)
    requires |sep| > 0
    ensures |r| >= 1
    decreases |s|
  {
    if |s| == 0 then [[]]
    else if StartsWith(s, sep) then [[]] + Split(s[|sep|..], sep)
    else
      var rest := Split(s[1..], sep);
      [[s[0]] + rest[0]] + rest[1..]
  }

  /** JavaScript `xs.join(sep)` / Python `sep.join(xs)`. */
  function Join(xs: seq<string>, sep: string): string
    decreases |xs|
  {
    if |xs| == 0 then []
    else if |xs| == 1 then xs[0]
    else xs[0] + sep + Join(xs[1..], sep)
  }

  /** A join starts with its first element. */
  lemma JoinStartsWith(xs: seq<string>, sep: string)
    requires |xs| > 0
    ensures StartsWith(Join(xs, sep), xs[0])
  {
    if |xs| > 1 {
      var rest := sep + Join(xs[1..], sep);
      assert Join(xs, sep) == xs[0] + rest;
      assert (xs[0] + rest)[..|xs[0]|] == xs[0];
    }
  }

  lemma JoinConsHead(c: string, xs: seq<string>, sep: string)
    requires |xs| >= 1
    ensures Join([c + xs[0]] + xs[1..], sep) == c + Join(xs, sep)
  {
    var ys := [c + xs[0]] + xs[1..];
    if |xs| == 1 {
    } else {
      assert ys[1..] == xs[1..];
    }
  }

  /** Joining two non-empty lists puts one separator between them. */
  lemma {:induction false} JoinAppend(xs: seq<string>, ys: seq<string>, sep: string)
    requires |xs| > 0 && |ys| > 0
    ensures Join(xs + ys, sep) == Join(xs, sep) + sep + Join(ys, sep)
    decreases |xs|
  {
    if |xs| == 1 {
      assert (xs + ys)[1..] == ys;
    } else {
      JoinAppend(xs[1..], ys, sep);
      assert (xs + ys)[1..] == xs[1..] + ys;
    }
  }

  /** Each element's contribution, concatenated in input order. */
  function FlatMap<T, U>(f: T -> seq<U>, xs: seq<T>): seq<U>
    decreases |xs|
  {
    if |xs| == 0 then [] else f(xs[0]) + FlatMap(f, xs[1..])
  }

  lemma {:induction false} FlatMapAppend<T, U>(f: T -> seq<U>, xs: seq<T>, ys: seq<T>)
    ensures FlatMap(f, xs + ys) == FlatMap(f, xs) + FlatMap(f, ys)
    decreases |xs|
  {
    if |xs| == 0 {
      assert xs + ys == ys;
    } else {
      FlatMapAppend(f, xs[1..], ys);
      assert (xs + ys)[1..] == xs[1..] + ys;
    }
  }

  /** A global literal replacement is a split followed by a join. */
  lemma {:induction false} ReplaceAllIsSplitJoin(s: string, pat: string, rep: string)
    requires |pat| > 0
    ensures ReplaceAll(s, pat, rep) == Join(Split(s, pat), rep)
    decreases |s|
  {
    if |s| == 0 {
    } else if StartsWith(s, pat) {
      ReplaceAllIsSplitJoin(s[|pat|..], pat, rep);
      var rest := Split(s[|pat|..], pat);
      assert Split(s, pat) == [[]] + rest;
      assert ([[]] + rest)[1..] == rest;
    } else {
      ReplaceAllIsSplitJoin(s[1..], pat, rep);
      var rest := Split(s[1..], pat);
      JoinConsHead([s[0]], rest, rep);
    }
  }

  /** The split has one more piece than there are separators. */
  lemma {:induction false} SplitLength(s: string, sep: string)
    requires |sep| > 0
    ensures |Split(s, sep)| == Count(s, sep) + 1
    decreases |s|
  {
    if |s| == 0 {
    } else if StartsWith(s, sep) {
      SplitLength(s[|sep|..], sep);
    } else {
      SplitLength(s[1..], sep);
    }
  }

  /** Replacing a pattern by itself changes nothing. */
  lemma {:induction false} ReplaceAllSelf(s: string, pat: string)
    requires |pat| > 0
    ensures ReplaceAll(s, pat, pat) == s
    decreases |s|
  {
    if |s| == 0 {
    } else if StartsWith(s, pat) {
      ReplaceAllSelf(s[|pat|..], pat);
      assert s == s[..|pat|] + s[|pat|..];
    } else {
      ReplaceAllSelf(s[1..], pat);
      assert s == [s[0]] + s[1..];
    }
  }

  /** Joining the pieces of a split with the separator restores the text. */
  lemma SplitJoinRoundTrip(s: string, sep: string)
    requires |sep| > 0
    ensures Join(Split(s, sep), sep) == s
  {
    ReplaceAllIsSplitJoin(s, sep, sep);
    ReplaceAllSelf(s, sep);
  }

  /** A prefix holding no character that can start the pattern is copied. */
  lemma {:induction false} ReplaceAllSkip(a: string, b: string, pat: string, rep: string)
    requires |pat| > 0
    requires forall i :: 0 <= i < |a| ==> a[i] != pat[0]
    ensures ReplaceAll(a + b, pat, rep) == a + ReplaceAll(b, pat, rep)
    decreases |a|
  {
    if |a| == 0 {
      assert a + b == b;
    } else {
      assert (a + b)[0] == a[0];
      assert !StartsWith(a + b, pat);
      assert (a + b)[1..] == a[1..] + b;
      ReplaceAllSkip(a[1..], b, pat, rep);
    }
  }

  /** A prefix at none of whose positions the pattern starts is copied. */
  lemma {:induction false} ReplaceAllSkipNoMatch(a: string, b: string, pat: string, rep: string)
    requires |pat| > 0
    requires forall i :: 0 <= i < |a| ==> !OccursAt(a + b, pat, i)
    ensures ReplaceAll(a + b, pat, rep) == a + ReplaceAll(b, pat, rep)
    decreases |a|
  {
    if |a| == 0 {
      assert a + b == b;
    } else {
      var ab := a + b;
      assert !OccursAt(ab, pat, 0);
      assert !StartsWith(ab, pat);
      assert ab[1..] == a[1..] + b;
      NoMatchShift(a, b, pat);
      ReplaceAllSkipNoMatch(a[1..], b, pat, rep);
      assert a == [a[0]] + a[1..];
    }
  }

  lemma NoMatchShift(a: string, b: string, pat: string)
    requires |a| > 0
    requires forall i :: 0 <= i < |a| ==> !OccursAt(a + b, pat, i)
    ensures forall i :: 0 <= i < |a[1..]| ==> !OccursAt(a[1..] + b, pat, i)
  {
    var ab := a + b;
    var t := a[1..] + b;
    assert t == ab[1..];
    forall i | 0 <= i < |a[1..]| ensures !OccursAt(t, pat, i) {
      assert !OccursAt(ab, pat, i + 1);
      if i + |pat| <= |t| {
        assert t[i..i + |pat|] == ab[i + 1..i + 1 + |pat|];
      }
    }
  }

  lemma ReplaceAllNoMatch(s: string, pat: string, rep: string)
    requires |pat| > 0
    requires forall i :: !OccursAt(s, pat, i)
    ensures ReplaceAll(s, pat, rep) == s
  {
    assert s + [] == s;
    ReplaceAllSkipNoMatch(s, [], pat, rep);
  }

  lemma ReplaceAllAbsent(s: string, pat: string, rep: string)
    requires |pat| > 0
    requires forall i :: 0 <= i < |s| ==> s[i] != pat[0]
    ensures ReplaceAll(s, pat, rep) == s
  {
    ReplaceAllSkip(s, [], pat, rep);
    assert s + [] == s;
  }

  lemma ReplaceAllMatchHead(pat: string, b: string, rep: string)
    requires |pat| > 0
    ensures ReplaceAll(pat + b, pat, rep) == rep + ReplaceAll(b, pat, rep)
  {
    assert StartsWith(pat + b, pat);
    assert (pat + b)[|pat|..] == b;
  }

  lemma ReplaceAllAppend(a: string, b: string, pat: string, rep: string)
    requires |pat| > 0
    requires forall i :: 0 <= i < |a| ==> a[i] != pat[0]
    requires forall i :: 0 <= i < |b| ==> b[i] != pat[0]
    ensures ReplaceAll(a + b, pat, rep) == a + b
  {
    ReplaceAllSkip(a, b, pat, rep);
    ReplaceAllAbsent(b, pat, rep);
  }

  // ---------------------------------------------------------------------
  // Lines
  // ---------------------------------------------------------------------

  /** Index of the first line terminator, or `|s|` when there is none. */
  function LineEnd(s: string): (r: nat)
    ensures r <= |s|
    ensures forall k :: 0 <= k < r ==> !IsTerminator(s[k])
    ensures r < |s| ==> IsTerminator(s[r])
    decreases |s|
  {
    if |s| == 0 then 0
    else if IsTerminator(s[0]) then 0
    else 1 + LineEnd(s[1..])
  }

  /** The lines of `s`, split at every terminator (JavaScript's view of
      lines under the `m` flag, where `\r\n` holds an empty line). */
  function Lines(s: string): (r: seq<string>)
    ensures |r| >= 1
    decreases |s|
  {
    if |s| == 0 then [[]]
    else if IsTerminator(s[0]) then [[]] + Lines(s[1..])
    else
      var rest := Lines(s[1..]);
      [[s[0]] + rest[0]] + rest[1..]
  }

  /** The terminators of `s`, in order. */
  function Terminators(s: string): (r: string)
    ensures |Lines(s)| == |r| + 1
    ensures forall i :: 0 <= i < |r| ==> IsTerminator(r[i])
    decreases |s|
  {
    if |s| == 0 then []
    else if IsTerminator(s[0]) then [s[0]] + Terminators(s[1..])
    else Terminators(s[1..])
  }

  /** Interleaves lines with the terminators between them. */
  function Unlines(ls: seq<string>, ts: string): string
    requires |ls| == |ts| + 1
    decreases |ts|
  {
    if |ts| == 0 then ls[0] else ls[0] + [ts[0]] + Unlines(ls[1..], ts[1..])
  }

  lemma UnlinesCons(l: string, t: char, ls: seq<string>, ts: string)
    requires |ls| == |ts| + 1
    ensures Unlines([l] + ls, [t] + ts) == l + [t] + Unlines(ls, ts)
  {
    assert ([l] + ls)[1..] == ls && ([t] + ts)[1..] == ts;
  }

  lemma UnlinesConsHead(c: string, ls: seq<string>, ts: string)
    requires |ls| == |ts| + 1
    ensures Unlines([c + ls[0]] + ls[1..], ts) == c + Unlines(ls, ts)
  {
    var ks := [c + ls[0]] + ls[1..];
    if |ts| > 0 {
      assert ks[1..] == ls[1..];
    }
  }

  /** Splitting into lines loses nothing. */
  lemma {:induction false} LinesRoundTrip(s: string)
    ensures Unlines(Lines(s), Terminators(s)) == s
    decreases |s|
  {
    if |s| == 0 {
    } else if IsTerminator(s[0]) {
      LinesRoundTrip(s[1..]);
      assert ([[]] + Lines(s[1..]))[1..] == Lines(s[1..]);
      assert s == [s[0]] + s[1..];
    } else {
      LinesRoundTrip(s[1..]);
      UnlinesConsHead([s[0]], Lines(s[1..]), Terminators(s[1..]));
      assert s == [s[0]] + s[1..];
    }
  }

  lemma LinesOfLine(s: string)
    requires forall k :: 0 <= k < |s| ==> !IsTerminator(s[k])
    ensures Lines(s) == [s] && Terminators(s) == []
    decreases |s|
  {
    if |s| > 0 {
      LinesOfLine(s[1..]);
      assert s == [s[0]] + s[1..];
    }
  }

  /** The first line and the lines after its terminator. */
  lemma {:induction false} LinesSplitAtEnd(s: string)
    ensures LineEnd(s) < |s| ==>
      Lines(s) == [s[..LineEnd(s)]] + Lines(s[LineEnd(s) + 1..])
      && Terminators(s) == [s[LineEnd(s)]] + Terminators(s[LineEnd(s) + 1..])
    ensures LineEnd(s) == |s| ==> Lines(s) == [s] && Terminators(s) == []
    decreases |s|
  {
    if |s| == 0 {
    } else if IsTerminator(s[0]) {
      assert s[..0] == [];
    } else {
      LinesSplitAtEnd(s[1..]);
      var e := LineEnd(s[1..]);
      assert LineEnd(s) == e + 1;
      if e < |s[1..]| {
        assert s[1..][..e] == s[1..e + 1];
        assert [s[0]] + s[1..e + 1] == s[..e + 1];
        assert s[1..][e + 1..] == s[e + 2..];
      } else {
        assert [s[0]] + s[1..] == s;
      }
    }
  }

  /** Text without a line terminator. */
  predicate OneLine(t: string) {
    forall k :: 0 <= k < |t| ==> !IsTerminator(t[k])
  }

  /** Every one of `ls` is a single line. */
  predicate AllOneLine(ls: seq<string>) {
    forall i :: 0 <= i < |ls| ==> OneLine(ls[i])
  }

  predicate AllTerminators(ts: string) {
    forall i :: 0 <= i < |ts| ==> IsTerminator(ts[i])
  }

  /** The lines of any text are single lines. */
  lemma {:induction false} LinesOneLine(s: string)
    ensures AllOneLine(Lines(s))
    decreases |s|
  {
    LinesSplitAtEnd(s);
    var e := LineEnd(s);
    if e < |s| {
      LinesOneLine(s[e + 1..]);
      var ls := Lines(s[e + 1..]);
      assert Lines(s) == [s[..e]] + ls;
      assert forall i :: 1 <= i < |Lines(s)| ==> Lines(s)[i] == ls[i - 1];
    }
  }

  /** Joining single lines with terminators and splitting again gives
      back the same lines and terminators. */
  lemma {:induction false} LinesOfUnlines(ls: seq<string>, ts: string)
    requires |ls| == |ts| + 1 && AllOneLine(ls) && AllTerminators(ts)
    ensures Lines(Unlines(ls, ts)) == ls && Terminators(Unlines(ls, ts)) == ts
    decreases |ts|
  {
    if |ts| == 0 {
      LinesOfLine(ls[0]);
    } else {
      var rest := Unlines(ls[1..], ts[1..]);
      assert AllOneLine(ls[1..]) by {
        assert forall i :: 0 <= i < |ls[1..]| ==> ls[1..][i] == ls[i + 1];
      }
      LinesOfUnlines(ls[1..], ts[1..]);
      SplitAtTerminator(ls[0], ts[0], rest);
      assert ls == [ls[0]] + ls[1..];
      assert ts == [ts[0]] + ts[1..];
    }
  }

  /** A single line, a terminator and more text split at that terminator. */
  lemma SplitAtTerminator(a: string, t: char, b: string)
    requires OneLine(a) && IsTerminator(t)
    ensures Lines(a + [t] + b) == [a] + Lines(b)
    ensures Terminators(a + [t] + b) == [t] + Terminators(b)
  {
    var s := a + [t] + b;
    assert s[|a|] == t;
    assert forall k :: 0 <= k < |a| ==> s[k] == a[k];
    assert LineEnd(s) == |a|;
    LinesSplitAtEnd(s);
    assert s[..|a|] == a;
    assert s[|a| + 1..] == b;
  }

  // ---------------------------------------------------------------------
  // Lazy delimiter pairs: /D(.*?)D/g
  // ---------------------------------------------------------------------

  /** Where the lazy `(.*?)D` started at `j` stops: the first occurrence of
      `d` at or after `j` that is not preceded by a terminator; `None` when
      the line ends first. */
  function CloseAt(s: string, j: nat, d: string): (r: Option<nat>)
    requires |d| > 0 && j <= |s|
    ensures r.Some? ==> j <= r.value && OccursAt(s, d, r.value)
    ensures r.Some? ==> forall k :: j <= k < r.value ==> !IsTerminator(s[k]) && !OccursAt(s, d, k)
    ensures r.None? ==> forall k :: j <= k <= j + LineEnd(s[j..]) ==> !OccursAt(s, d, k)
    decreases |s| - j
  {
    if OccursAt(s, d, j) then Some(j)
    else if j == |s| then None
    else if IsTerminator(s[j]) then None
    else
      assert s[j + 1..] == s[j..][1..];
      CloseAt(s, j + 1, d)
  }

  /** JavaScript `s.replace(/D(.*?)D/g, open + "$1" + close)` for a literal
      delimiter D: scanning left to right, an opening D pairs with the
      nearest following D on the same line. */
  function Pairs(s: string, d: string, open: string, close: string): string
    requires |d| > 0
    decreases |s|
  {
    if |s| == 0 then []
    else if StartsWith(s, d) then
      match CloseAt(s, |d|, d)
      case Some(k) => open + s[|d|..k] + close + Pairs(s[k + |d|..], d, open, close)
      case None => [s[0]] + Pairs(s[1..], d, open, close)
    else [s[0]] + Pairs(s[1..], d, open, close)
  }

  /** The closing search runs over a stretch free of the delimiter's first
      character and of line ends, and stops at the delimiter after it. */
  lemma {:induction false} CloseAtScan(s: string, j: nat, m: nat, d: string)
    requires |d| > 0 && j + m <= |s|
    requires forall k :: j <= k < j + m ==> s[k] != d[0] && !IsTerminator(s[k])
    requires OccursAt(s, d, j + m)
    ensures CloseAt(s, j, d) == Some(j + m)
    decreases m
  {
    if m > 0 {
      assert !OccursAt(s, d, j) by {
        assert s[j..j + |d|][0] == s[j];
      }
      CloseAtScan(s, j + 1, m - 1, d);
    }
  }

  /** A delimited stretch on one line is replaced by its tagged contents. */
  lemma PairsFrame(x: string, d: string, open: string, close: string)
    requires |d| > 0
    requires forall i :: 0 <= i < |x| ==> x[i] != d[0] && !IsTerminator(x[i])
    ensures Pairs(d + x + d, d, open, close) == open + x + close
  {
    var s := d + x + d;
    assert StartsWith(s, d) by { assert s[..|d|] == d; }
    assert s[|d| + |x|..|d| + |x| + |d|] == d;
    CloseAtScan(s, |d|, |x|, d);
    assert s[|d|..|d| + |x|] == x;
    assert s[|d| + |x| + |d|..] == [];
    assert open + x + close + [] == open + x + close;
  }

  /** A character that cannot open a pair is copied. */
  lemma PairsStep(s: string, d: string, open: string, close: string)
    requires |d| > 0 && |s| > 0 && s[0] != d[0]
    ensures Pairs(s, d, open, close) == [s[0]] + Pairs(s[1..], d, open, close)
  {
    assert !StartsWith(s, d) by {
      if |d| <= |s| { assert s[..|d|][0] == s[0]; }
    }
  }

  /** A prefix without the delimiter's first character is copied. */
  lemma {:induction false} PairsSkip(a: string, b: string, d: string, open: string, close: string)
    requires |d| > 0
    requires forall i :: 0 <= i < |a| ==> a[i] != d[0]
    ensures Pairs(a + b, d, open, close) == a + Pairs(b, d, open, close)
    decreases |a|
  {
    if |a| == 0 {
      assert a + b == b;
    } else {
      var ab := a + b;
      assert ab[0] == a[0];
      PairsStep(ab, d, open, close);
      assert ab[1..] == a[1..] + b;
      PairsSkip(a[1..], b, d, open, close);
      assert a == [a[0]] + a[1..];
    }
  }

  lemma PairsAbsent(s: string, d: string, open: string, close: string)
    requires |d| > 0
    requires forall i :: 0 <= i < |s| ==> s[i] != d[0]
    ensures Pairs(s, d, open, close) == s
  {
    PairsSkip(s, [], d, open, close);
    assert s + [] == s;
  }

  /** The closing search cannot see past the end of the line it starts on. */
  lemma {:induction false} CloseAtInLine(a: string, rest: string, j: nat, d: string)
    requires |d| > 0 && OneLine(d) && OneLine(a) && j <= |a|
    requires |rest| > 0 && IsTerminator(rest[0])
    ensures CloseAt(a + rest, j, d) == CloseAt(a, j, d)
    decreases |a| - j
  {
    var s := a + rest;
    assert OccursAt(s, d, j) <==> OccursAt(a, d, j) by {
      if j + |d| <= |a| {
        assert s[j..j + |d|] == a[j..j + |d|];
      } else if j + |d| <= |s| {
        assert IsTerminator(s[j..j + |d|][|a| - j]) && !IsTerminator(d[|a| - j]);
      }
    }
    if !OccursAt(s, d, j) && j < |a| {
      assert s[j] == a[j];
      CloseAtInLine(a, rest, j + 1, d);
    }
  }

  /** A pair closes before the end of its line. */
  lemma PairInLine(a: string, d: string, k: nat)
    requires |d| > 0 && OccursAt(a, d, k)
    ensures k + |d| <= |a|
  {
  }

  /** Pairing never crosses a line end: the line before a terminator and
      the text after it are paired separately. */
  lemma {:induction false} PairsAcrossLine(a: string, t: char, b: string, d: string, open: string, close: string)
    requires |d| > 0 && OneLine(d) && OneLine(a) && IsTerminator(t)
    ensures Pairs(a + [t] + b, d, open, close) == Pairs(a, d, open, close) + [t] + Pairs(b, d, open, close)
    decreases |a|
  {
    var s := a + [t] + b;
    if |a| == 0 {
      assert s == [t] + b;
      assert d[0] != t;
      PairsStep(s, d, open, close);
      assert s[1..] == b;
    } else {
      StartsInLine(a, [t] + b, d);
      assert a + ([t] + b) == s;
      if StartsWith(a, d) && CloseAt(a, |d|, d).Some? {
        var k := CloseAt(a, |d|, d).value;
        CloseAtInLine(a, [t] + b, |d|, d);
        PairInLine(a, d, k);
        PairsAcrossLine(a[k + |d|..], t, b, d, open, close);
        PairsPairStep(a, t, b, d, open, close, k);
      } else {
        if StartsWith(a, d) {
          CloseAtInLine(a, [t] + b, |d|, d);
        }
        PairsAcrossLine(a[1..], t, b, d, open, close);
        PairsCopyStep(a, t, b, d, open, close);
      }
    }
  }

  /** Text starts with the delimiter exactly when its first line does. */
  lemma StartsInLine(a: string, rest: string, d: string)
    requires |a| > 0 && |rest| > 0 && IsTerminator(rest[0]) && OneLine(d)
    ensures StartsWith(a + rest, d) <==> StartsWith(a, d)
  {
    var s := a + rest;
    if |d| <= |a| {
      assert s[..|d|] == a[..|d|];
    } else if |d| <= |s| {
      assert IsTerminator(s[..|d|][|a|]) && !IsTerminator(d[|a|]);
    }
  }

  /** The step of `PairsAcrossLine` where the line opens a pair closed at `k`. */
  lemma PairsPairStep(a: string, t: char, b: string, d: string, open: string, close: string, k: nat)
    requires |d| > 0 && StartsWith(a, d) && CloseAt(a, |d|, d) == Some(k) && k + |d| <= |a|
    requires StartsWith(a + [t] + b, d) && CloseAt(a + [t] + b, |d|, d) == Some(k)
    requires Pairs(a[k + |d|..] + [t] + b, d, open, close)
             == Pairs(a[k + |d|..], d, open, close) + [t] + Pairs(b, d, open, close)
    ensures Pairs(a + [t] + b, d, open, close) == Pairs(a, d, open, close) + [t] + Pairs(b, d, open, close)
  {
    PairsOpenedLine(a, t, b, d, open, close, k);
    PairsOpened(a, d, open, close, k);
    SpliceLine(Pairs(a + [t] + b, d, open, close), Pairs(a, d, open, close), open + a[|d|..k] + close, open + a[|d|..k] + close,
               Pairs(a[k + |d|..] + [t] + b, d, open, close), Pairs(a[k + |d|..], d, open, close), t, Pairs(b, d, open, close));
  }

  /** `PairsOpened` for a line followed by a terminator and more text. */
  lemma PairsOpenedLine(a: string, t: char, b: string, d: string, open: string, close: string, k: nat)
    requires |d| > 0 && k + |d| <= |a|
    requires StartsWith(a + [t] + b, d) && CloseAt(a + [t] + b, |d|, d) == Some(k)
    ensures Pairs(a + [t] + b, d, open, close) == open + a[|d|..k] + close + Pairs(a[k + |d|..] + [t] + b, d, open, close)
  {
    PairsOpened(a + [t] + b, d, open, close, k);
    AroundLineEnd(a, t, b, |d|, k);
    AroundLineEnd(a, t, b, k, k + |d|);
    PairsCong((a + [t] + b)[k + |d|..], a[k + |d|..] + [t] + b, d, open, close);
  }

  lemma PairsCong(x: string, y: string, d: string, open: string, close: string)
    requires |d| > 0 && x == y
    ensures Pairs(x, d, open, close) == Pairs(y, d, open, close)
  {
  }

  /** Slices of a line followed by a terminator and more text. */
  lemma AroundLineEnd(a: string, t: char, b: string, i: nat, j: nat)
    requires i <= j <= |a|
    ensures (a + [t] + b)[i..j] == a[i..j]
    ensures (a + [t] + b)[j..] == a[j..] + [t] + b
  {
  }

  /** Two texts with the same head, whose tails differ by a terminator and a suffix, differ the same way. */
  lemma SpliceLine(whole: string, line: string, x: string, y: string, rest: string, tail: string, t: char, after: string)
    requires whole == x + rest && line == y + tail && x == y && rest == tail + [t] + after
    ensures whole == line + [t] + after
  {
  }

  /** A pair opened at the start and closed at `k` is replaced by its tags. */
  lemma PairsOpened(s: string, d: string, open: string, close: string, k: nat)
    requires |d| > 0 && StartsWith(s, d) && CloseAt(s, |d|, d) == Some(k)
    ensures Pairs(s, d, open, close) == open + s[|d|..k] + close + Pairs(s[k + |d|..], d, open, close)
  {
    assert |s| != 0;
    var c := CloseAt(s, |d|, d);
    assert c == Some(k);
  }

  /** The step of `PairsAcrossLine` where the line's first character is copied. */
  lemma PairsCopyStep(a: string, t: char, b: string, d: string, open: string, close: string)
    requires |d| > 0 && |a| > 0
    requires !(StartsWith(a, d) && CloseAt(a, |d|, d).Some?)
    requires StartsWith(a + [t] + b, d) <==> StartsWith(a, d)
    requires StartsWith(a, d) ==> CloseAt(a + [t] + b, |d|, d) == CloseAt(a, |d|, d)
    requires Pairs(a[1..] + [t] + b, d, open, close)
             == Pairs(a[1..], d, open, close) + [t] + Pairs(b, d, open, close)
    ensures Pairs(a + [t] + b, d, open, close) == Pairs(a, d, open, close) + [t] + Pairs(b, d, open, close)
  {
    var s := a + [t] + b;
    assert s[0] == a[0];
    assert s[1..] == a[1..] + [t] + b;
  }

  /** Pairing applied to joined lines pairs each line on its own. */
  lemma {:induction false} PairsByLines(ls: seq<string>, ts: string, d: string, open: string, close: string)
    requires |d| > 0 && OneLine(d)
    requires |ls| == |ts| + 1 && AllOneLine(ls) && AllTerminators(ts)
    ensures Pairs(Unlines(ls, ts), d, open, close) == Unlines(PairLines(ls, d, open, close), ts)
    decreases |ts|
  {
    if |ts| > 0 {
      assert AllOneLine(ls[1..]) by {
        assert forall i :: 0 <= i < |ls[1..]| ==> ls[1..][i] == ls[i + 1];
      }
      PairsByLines(ls[1..], ts[1..], d, open, close);
      PairsAcrossLine(ls[0], ts[0], Unlines(ls[1..], ts[1..]), d, open, close);
      var ps := PairLines(ls, d, open, close);
      assert ps[1..] == PairLines(ls[1..], d, open, close);
    }
  }

  /** Each line paired on its own. */
  function PairLines(ls: seq<string>, d: string, open: string, close: string): (r: seq<string>)
    requires |d| > 0
    ensures |r| == |ls|
    ensures forall i :: 0 <= i < |ls| ==> r[i] == Pairs(ls[i], d, open, close)
  {
    seq(|ls|, i requires 0 <= i < |ls| => Pairs(ls[i], d, open, close))
  }

  /** Pairing a single line with single-line tags gives a single line. */
  lemma {:induction false} PairsOneLine(s: string, d: string, open: string, close: string)
    requires |d| > 0 && OneLine(s) && OneLine(open) && OneLine(close)
    ensures OneLine(Pairs(s, d, open, close))
    decreases |s|
  {
    if |s| > 0 {
      if StartsWith(s, d) && CloseAt(s, |d|, d).Some? {
        var k := CloseAt(s, |d|, d).value;
        PairsOneLine(s[k + |d|..], d, open, close);
        OneLineJoin(open, s[|d|..k], close, Pairs(s[k + |d|..], d, open, close));
      } else {
        PairsOneLine(s[1..], d, open, close);
        OneLineJoin([], [s[0]], [], Pairs(s[1..], d, open, close));
      }
    }
  }

  lemma OneLineJoin(a: string, b: string, c: string, e: string)
    requires OneLine(a) && OneLine(b) && OneLine(c) && OneLine(e)
    ensures OneLine(a + b + c + e)
  {
    var s := a + b + c + e;
    forall k | 0 <= k < |s|
      ensures !IsTerminator(s[k])
    {
      if k < |a| {
        assert s[k] == a[k];
      } else if k < |a| + |b| {
        assert s[k] == b[k - |a|];
      } else if k < |a| + |b| + |c| {
        assert s[k] == c[k - |a| - |b|];
      } else {
        assert s[k] == e[k - |a| - |b| - |c|];
      }
    }
  }

  /** Every line stays a single line when each is paired. */
  lemma PairLinesOneLine(ls: seq<string>, d: string, open: string, close: string)
    requires |d| > 0 && AllOneLine(ls) && OneLine(open) && OneLine(close)
    ensures AllOneLine(PairLines(ls, d, open, close))
  {
    forall i | 0 <= i < |ls|
      ensures OneLine(PairLines(ls, d, open, close)[i])
    {
      PairsOneLine(ls[i], d, open, close);
    }
  }

  // ---------------------------------------------------------------------
  // Odds and ends
  // ---------------------------------------------------------------------

  function TrimStart(s: string): (r: string)
    ensures |r| <= |s| && r == s[|s| - |r|..]
    ensures |r| > 0 ==> !IsPySpace(r[0])
    ensures forall i :: 0 <= i < |s| - |r| ==> IsPySpace(s[i])
    decreases |s|
  {
    if |s| > 0 && IsPySpace(s[0]) then TrimStart(s[1..]) else s
  }

  function TrimEnd(s: string): (r: string)
    ensures |r| <= |s| && r == s[..|r|]
    ensures |r| > 0 ==> !IsPySpace(r[|r| - 1])
    ensures forall i :: |r| <= i < |s| ==> IsPySpace(s[i])
    decreases |s|
  {
    if |s| > 0 && IsPySpace(s[|s| - 1]) then TrimEnd(s[..|s| - 1]) else s
  }

  /** Python's `s.strip()`: leading and trailing whitespace removed. */
  function Strip(s: string): (r: string)
    ensures |r| <= |s|
    ensures |r| == 0 || (!IsPySpace(r[0]) && !IsPySpace(r[|r| - 1]))
  {
    TrimEnd(TrimStart(s))
  }

  /** The string is empty after `strip()` exactly when it is all whitespace. */
  lemma StripEmptyIff(s: string)
    ensures |Strip(s)| == 0 <==> forall i :: 0 <= i < |s| ==> IsPySpace(s[i])
  {
    var t := TrimStart(s);
    var u := TrimEnd(t);
    if |u| == 0 {
      assert |t| == 0;
    } else {
      assert !IsPySpace(s[|s| - |t|]);
    }
  }

  /** Length in UTF-16 code units (JavaScript's `length`). */
  function Utf16Length(s: string): (r: nat)
    ensures |s| <= r <= 2 * |s|
  {
    if |s| == 0 then 0
    else (if s[0] as int > 0xFFFF then 2 else 1) + Utf16Length(s[1..])
  }

  /** JavaScript `s.replace(a, b)` for one-character string patterns: only
      the first occurrence changes. */
  function ReplaceFirstChar(s: string, a: char, b: char): (r: string)
    ensures |r| == |s|
    decreases |s|
  {
    if |s| == 0 then []
    else if s[0] == a then [b] + s[1..]
    else [s[0]] + ReplaceFirstChar(s[1..], a, b)
  }

  lemma {:induction false} ReplaceFirstCharAbsent(s: string, a: char, b: char)
    requires forall i :: 0 <= i < |s| ==> s[i] != a
    ensures ReplaceFirstChar(s, a, b) == s
    decreases |s|
  {
    if |s| > 0 {
      ReplaceFirstCharAbsent(s[1..], a, b);
    }
  }

  /** Only the first occurrence, at `p`, is replaced; everything else is kept. */
  lemma {:induction false} ReplaceFirstCharAt(s: string, a: char, b: char, p: nat)
    requires p < |s| && s[p] == a
    requires forall i :: 0 <= i < p ==> s[i] != a
    ensures ReplaceFirstChar(s, a, b) == s[..p] + [b] + s[p + 1..]
    decreases p
  {
    if p > 0 {
      var t := s[1..];
      assert forall i :: 0 <= i < p - 1 ==> t[i] == s[i + 1];
      ReplaceFirstCharAt(t, a, b, p - 1);
      assert ReplaceFirstChar(s, a, b) == [s[0]] + ReplaceFirstChar(t, a, b);
      SpliceCons(s, p, b);
    }
  }

  lemma SpliceCons(s: string, p: nat, b: char)
    requires 0 < p < |s|
    ensures [s[0]] + (s[1..][..p - 1] + [b] + s[1..][p..]) == s[..p] + [b] + s[p + 1..]
  {
    assert s[1..][..p - 1] == s[1..p] && s[1..][p..] == s[p + 1..];
    assert [s[0]] + s[1..p] == s[..p];
  }

  // ---------------------------------------------------------------------
  // Framing
  // ---------------------------------------------------------------------

  /** Reads back what sits between a document's framing, if `doc` has that
      framing. */
  function Unframe(doc: string, prefix: string, suffix: string): (r: Option<string>)
    ensures r.Some? <==> |prefix| + |suffix| <= |doc| && StartsWith(doc, prefix) && doc[|doc| - |suffix|..] == suffix
    ensures r.Some? ==> doc == prefix + r.value + suffix
  {
    if |prefix| + |suffix| <= |doc| && StartsWith(doc, prefix) && doc[|doc| - |suffix|..] == suffix then
      assert doc == doc[..|prefix|] + doc[|prefix|..|doc| - |suffix|] + doc[|doc| - |suffix|..];
      Some(doc[|prefix|..|doc| - |suffix|])
    else None
  }

  /** Framing then unframing gives back what was framed. */
  lemma UnframeFrame(prefix: string, x: string, suffix: string)
    ensures Unframe(prefix + x + suffix, prefix, suffix) == Some(x)
  {
    var doc := prefix + x + suffix;
    assert doc[..|prefix|] == prefix;
    assert doc[|doc| - |suffix|..] == suffix;
    assert doc[|prefix|..|doc| - |suffix|] == x;
  }

  /** For a one-character pattern, `Count` is the character's multiplicity. */
  lemma {:induction false} CountChar(s: string, c: char)
    ensures Count(s, [c]) == multiset(s)[c]
    decreases |s|
  {
    if |s| > 0 {
      CountChar(s[1..], c);
      assert s == [s[0]] + s[1..];
      assert multiset(s) == multiset([s[0]]) + multiset(s[1..]);
      assert StartsWith(s, [c]) <==> s[0] == c;
    }
  }

  /** `Utf16Length` counts one unit per character, plus one more for each
      character outside the Basic Multilingual Plane. */
  lemma {:induction false} Utf16LengthBmp(s: string)
    ensures Utf16Length(s) == |s| <==> forall i :: 0 <= i < |s| ==> s[i] as int <= 0xFFFF
    decreases |s|
  {
    if |s| > 0 {
      Utf16LengthBmp(s[1..]);
      assert forall i :: 1 <= i < |s| ==> s[i] == s[1..][i - 1];
    }
  }
}

