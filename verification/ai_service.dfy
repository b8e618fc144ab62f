/**
 The prompt assembly of the AI service: the tutorial/documentation
 branch, the component, audience and tone instruction tables, the
 indented structure outline, the commit summary, and the fallbacks for
 values the analysis dict may lack. The language model itself is a
 parameter: a function from prompt to reply.

 The prompts' fixed prose is not reproduced; a prompt is modelled as the
 sequence of its interpolated lines, each under a short label, in the
 order the template places them.
 */
module AiService {
  import opened Text
  import opened Schemas

  // ---------------------------------------------------------------------
  // The analysis as a Python dict
  // ---------------------------------------------------------------------

  /** A dict entry: missing, present with `None`, or present with a value.
      `dict.get(key, default)` falls back to `default` only when missing. */
  datatype Slot<T> = Missing | NoneValue | Value(v: T)

  /** `d.get(key, default)`: `None` stands for Python's `None`. */
  function Get<T>(s: Slot<T>, default: T): (r: Option<T>)
    ensures s.Missing? ==> r == Some(default)
    ensures s.NoneValue? ==> r.None?
    ensures s.Value? ==> r == Some(s.v)
  {
    match s
    case Missing => Some(default)
    case NoneValue => None
    case Value(v) => Some(v)
  }

  /** An f-string's rendering of an optional string. */
  function Show(o: Option<string>): string {
    match o
    case None => "None"
    case Some(s) => s
  }

  /** Python truthiness of an optional string. */
  predicate Truthy(o: Option<string>) {
    o.Some? && |o.value| > 0
  }

  /** A commit dict of the history list. */
  datatype CommitDict = CommitDict(hash: Slot<string>, message: Slot<string>, author: Slot<string>)

  /** The analysis dict the prompt builders read. */
  datatype AnalysisDict = AnalysisDict(
    name: Slot<string>,
    description: Slot<string>,
    language: Slot<string>,
    technologies: Slot<seq<string>>,
    structure: Slot<Structure>,
    gitHistory: Slot<seq<CommitDict>>,
    licenseType: Slot<string>)

  function OptionSlot<T>(o: Option<T>): (s: Slot<T>)
    ensures s.Missing? == false
    ensures o.None? <==> s.NoneValue?
  {
    match o
    case None => NoneValue
    case Some(v) => Value(v)
  }

  /** The dict the analysis produces: every key is present; a missing
      description, language or licence is stored as `None`.
      `technologies` is the list made from the analysis's set, in an
      order the set does not fix. */
  function AsDict(a: RepoAnalysis, technologies: seq<string>): (d: AnalysisDict)
    requires forall t :: t in technologies <==> t in a.technologies
    ensures !d.name.Missing? && !d.language.Missing? && !d.licenseType.Missing?
    ensures a.language.None? <==> d.language == NoneValue
  {
    AnalysisDict(
      Value(a.name),
      OptionSlot(a.description),
      OptionSlot(a.language),
      Value(technologies),
      Value(a.structure),
      Value(seq(|a.gitHistory|, i requires 0 <= i < |a.gitHistory| =>
        CommitDict(Value(a.gitHistory[i].hash), Value(a.gitHistory[i].message), Value(a.gitHistory[i].author)))),
      OptionSlot(a.licenseType))
  }

  // ---------------------------------------------------------------------
  // Fallbacks (ai_service.py lines 34-38 and 271-277)
  // ---------------------------------------------------------------------

  const UnknownProject := "Unknown Project"
  const NoDescription := "No description provided"
  const UnknownLanguage := "Unknown"
  const NotSpecified := "Not specified"

  /** `analysis.get("description") or request.project_description or
      "No description provided"`: an empty string counts as absent. */
  function Description(d: AnalysisDict, projectDescription: Option<string>): (r: string)
    ensures |r| > 0
    ensures Truthy(Get(d.description, "")) && d.description.Value? ==> r == d.description.v
    ensures !(d.description.Value? && |d.description.v| > 0) && Truthy(projectDescription)
            ==> r == projectDescription.value
    ensures !(d.description.Value? && |d.description.v| > 0) && !Truthy(projectDescription)
            ==> r == NoDescription
  {
    if d.description.Value? && |d.description.v| > 0 then d.description.v
    else if Truthy(projectDescription) then projectDescription.value
    else NoDescription
  }

  /** The project name as the prompts show it. */
  function RepoName(d: AnalysisDict): string {
    Show(Get(d.name, UnknownProject))
  }

  /** The licence as the documentation prompt shows it. */
  function License(d: AnalysisDict): string {
    Show(Get(d.licenseType, NotSpecified))
  }

  /** The language as the prompts show it, as written: the default applies
      only to a missing key, so a `None` language shows as "None". */
  function LanguageAsWritten(d: AnalysisDict): string {
    Show(Get(d.language, UnknownLanguage))
  }

  /** The code-fence tag the prompts derive with `language.lower()`, as
      written: on a `None` language the call raises. */
  function FenceTagAsWritten(d: AnalysisDict): (r: Result<string>)
    ensures r.Failure? <==> d.language.NoneValue?
  {
    match Get(d.language, UnknownLanguage)
    case None => Failure("'NoneType' object has no attribute 'lower'")
    case Some(l) => Success(Lower(l))
  }

  /** The language with the fallback the `.get` default evidently aims at:
      any missing, `None` or empty language is "Unknown". */
  function Language(d: AnalysisDict): (r: string)
    ensures |r| > 0
    ensures d.language.Value? && |d.language.v| > 0 ==> r == d.language.v
    ensures !(d.language.Value? && |d.language.v| > 0) ==> r == UnknownLanguage
  {
    if d.language.Value? && |d.language.v| > 0 then d.language.v else UnknownLanguage
  }

  function FenceTag(d: AnalysisDict): string {
    Lower(Language(d))
  }

  /** `', '.join(technologies) if technologies else placeholder`. */
  function TechnologyLine(t: Slot<seq<string>>, placeholder: string): (r: string)
    ensures t.Value? && |t.v| > 0 ==> r == Join(t.v, ", ")
    ensures !(t.Value? && |t.v| > 0) ==> r == placeholder
  {
    match Get(t, [])
    case Some(ts) => if |ts| > 0 then Join(ts, ", ") else placeholder
    case None => placeholder
  }

  // ---------------------------------------------------------------------
  // Instruction tables (lines 593-636)
  // ---------------------------------------------------------------------

  /** The fourteen-entry component table. */
  function ComponentInstruction(id: string): Option<string> {
    if id == "overview" then Some("- **Project Overview**: Comprehensive introduction with clear value proposition and use cases")
    else if id == "installation" then Some("- **Installation Guide**: Step-by-step setup instructions with prerequisites and verification")
    else if id == "usage" then Some("- **Usage Examples**: Multiple practical examples from basic to advanced scenarios")
    else if id == "api" then Some("- **API Reference**: Complete API documentation with parameters, returns, and examples")
    else if id == "architecture" then Some("- **Architecture**: System design overview with diagrams and component explanations")
    else if id == "configuration" then Some("- **Configuration**: Detailed configuration options and environment setup")
    else if id == "deployment" then Some("- **Deployment**: Production deployment guides for various platforms")
    else if id == "testing" then Some("- **Testing**: How to run tests and write new tests")
    else if id == "contributing" then Some("- **Contributing**: Guidelines for contributors and development setup")
    else if id == "changelog" then Some("- **Changelog**: Version history and recent changes")
    else if id == "troubleshooting" then Some("- **Troubleshooting**: Common issues and solutions")
    else if id == "tutorial" then Some("- **Tutorial**: Step-by-step learning guide with code examples")
    else if id == "code-examples" then Some("- **Code Examples**: Practical, executable code snippets")
    else if id == "step-by-step" then Some("- **Step-by-Step Guide**: Detailed procedural instructions")
    else None
  }

  const CompleteDocumentation := "- **Complete Documentation**: All standard documentation components"

  /** The line one id contributes: its table entry, or nothing. */
  function LineOf(id: string): (r: seq<string>)
    ensures |r| <= 1
    ensures |r| == 1 <==> ComponentInstruction(id).Some?
  {
    match ComponentInstruction(id)
    case Some(l) => [l]
    case None => []
  }

  /** The instruction lines for `ids`: one per id the table knows, in
      input order, repeats kept. */
  function InstructionLines(ids: seq<string>): seq<string> {
    FlatMap(LineOf, ids)
  }

  /** How many of `ids` the table knows. */
  function KnownCount(ids: seq<string>): nat {
    if |ids| == 0 then 0
    else (if ComponentInstruction(ids[0]).Some? then 1 else 0) + KnownCount(ids[1..])
  }

  /** The text the components instruction stands for: the known ids'
      lines, one per line, or the catch-all line when none is known. */
  function ComponentsText(ids: seq<string>): string {
    if KnownCount(ids) == 0 then CompleteDocumentation
    else Join(InstructionLines(ids), "\n")
  }

  /** `_get_components_instructions`. */
  method ComponentsInstructions(ids: seq<string>) returns (text: string)
    ensures text == ComponentsText(ids)
  {
    var lines := CollectLines(ids);
    InstructionLinesCount(ids);
    if |lines| > 0 {
      text := Join(lines, "\n");
    } else {
      text := CompleteDocumentation;
    }
  }

  /** The loop of `_get_components_instructions`: the known ids' lines, in
      input order. */
  method CollectLines(ids: seq<string>) returns (lines: seq<string>)
    ensures lines == InstructionLines(ids)
  {
    lines := [];
    var i := 0;
    while i < |ids|
      invariant 0 <= i <= |ids|
      invariant lines + InstructionLines(ids[i..]) == InstructionLines(ids)
    {
      var line := LineOf(ids[i]);
      InstructionLinesStep(ids, i, lines, line);
      lines := lines + line;
      i := i + 1;
    }
    assert ids[|ids|..] == [];
  }

  lemma InstructionLinesStep(ids: seq<string>, i: nat, lines: seq<string>, line: seq<string>)
    requires i < |ids| && line == LineOf(ids[i])
    ensures lines + InstructionLines(ids[i..]) == (lines + line) + InstructionLines(ids[i + 1..])
  {
    assert ids[i..][1..] == ids[i + 1..];
  }

  /** One instruction line for each known id. */
  lemma {:induction false} InstructionLinesCount(ids: seq<string>)
    ensures |InstructionLines(ids)| == KnownCount(ids)
  {
    if |ids| > 0 {
      InstructionLinesCount(ids[1..]);
    }
  }

  /** Instruction lines of a concatenation are the concatenated lines:
      order follows the input and each occurrence counts. */
  lemma InstructionLinesAppend(a: seq<string>, b: seq<string>)
    ensures InstructionLines(a + b) == InstructionLines(a) + InstructionLines(b)
  {
    FlatMapAppend(LineOf, a, b);
  }

  const UnknownAudience := "Intermediate developers"
  const UnknownTone := "Professional and clear"

  /** The audience table, by enumeration value. */
  function AudienceText(a: Audience): string {
    match a
    case Beginner => "New developers who need detailed explanations and context for every concept"
    case Intermediate => "Developers with some experience who need clear examples and best practices"
    case Advanced => "Experienced developers who need comprehensive reference and advanced usage patterns"
  }

  function ToneText(t: Tone): string {
    match t
    case Professional => "Formal, precise, and business-appropriate language"
    case Friendly => "Conversational, welcoming, and approachable language"
    case Technical => "Precise, detailed, and technically accurate language"
    case Fun => "Engaging, enthusiastic, and entertaining language while maintaining accuracy"
  }

  /** `_get_audience_instruction`, keyed by the wire name. */
  function AudienceInstruction(key: string): string {
    if key == "beginner" then AudienceText(Beginner)
    else if key == "intermediate" then AudienceText(Intermediate)
    else if key == "advanced" then AudienceText(Advanced)
    else UnknownAudience
  }

  /** `_get_tone_instruction`, keyed by the wire name. */
  function ToneInstruction(key: string): string {
    if key == "professional" then ToneText(Professional)
    else if key == "friendly" then ToneText(Friendly)
    else if key == "technical" then ToneText(Technical)
    else if key == "fun" then ToneText(Fun)
    else UnknownTone
  }

  /** A known audience key maps to its table entry; any other key gets
      the fallback, which no table entry equals. */
  lemma AudienceLookup(key: string)
    ensures ParseAudience(key).Some? ==> AudienceInstruction(key) == AudienceText(ParseAudience(key).value)
    ensures ParseAudience(key).None? ==> AudienceInstruction(key) == UnknownAudience
    ensures AudienceInstruction(key) == UnknownAudience <==> ParseAudience(key).None?
  {
    if ParseAudience(key).Some? {
      AudienceTextKnown(ParseAudience(key).value);
    }
  }

  /** No audience table entry is the fallback text. */
  lemma AudienceTextKnown(a: Audience)
    ensures AudienceText(a) != UnknownAudience
  {
    assert |UnknownAudience| == 23;
  }

  lemma ToneLookup(key: string)
    ensures ParseTone(key).Some? ==> ToneInstruction(key) == ToneText(ParseTone(key).value)
    ensures ParseTone(key).None? ==> ToneInstruction(key) == UnknownTone
    ensures ToneInstruction(key) == UnknownTone <==> ParseTone(key).None?
  {
    if ParseTone(key).Some? {
      ToneTextKnown(ParseTone(key).value);
    }
  }

  /** No tone table entry is the fallback text. */
  lemma ToneTextKnown(t: Tone)
    ensures ToneText(t) != UnknownTone
  {
    assert |UnknownTone| == 22;
  }

  // ---------------------------------------------------------------------
  // Structure outline (lines 638-652)
  // ---------------------------------------------------------------------

  const StructurePlaceholder := "Repository structure analysis in progress..."

  /** The strings of `xs` that are not empty (`filter(None, xs)`). */
  function NonEmpty(xs: seq<string>): (r: seq<string>)
    ensures forall i :: 0 <= i < |r| ==> |r[i]| > 0
    ensures |r| <= |xs|
  {
    if |xs| == 0 then []
    else (if |xs[0]| > 0 then [xs[0]] else []) + NonEmpty(xs[1..])
  }

  /** `_format_structure_detailed`: one element per key, a nested dict's
      formatted text following its key as one more element; the
      non-empty elements are joined by newlines. */
  function FormatStructure(s: Structure, indent: string): string
    decreases s, 1
  {
    if |s.entries| == 0 then StructurePlaceholder
    else Join(NonEmpty(Formatted(s.entries, indent)), "\n")
  }

  function Formatted(es: seq<Entry>, indent: string): seq<string>
    decreases es, 0
  {
    if |es| == 0 then []
    else
      var e := es[0];
      var here :=
        match e.value
        case FileMarker => [indent + e.key]
        case Nested(sub) =>
          [indent + e.key] + (if |sub.entries| > 0 then [FormatStructure(sub, indent + "  ")] else []);
      here + Formatted(es[1..], indent)
  }

  /** The outline as a reader sees it: every key at every depth on its own
      line, indented by two spaces per level, in pre-order. */
  function Outline(es: seq<Entry>, indent: string): seq<string>
    decreases es
  {
    if |es| == 0 then []
    else
      var e := es[0];
      [indent + e.key]
      + (match e.value case FileMarker => [] case Nested(sub) => Outline(sub.entries, indent + "  "))
      + Outline(es[1..], indent)
  }

  /** Joining the non-empty strings of a list. */
  function JoinNonEmpty(xs: seq<string>): string {
    Join(NonEmpty(xs), "\n")
  }

  /** Two joined texts, with a newline between them when both are non-empty. */
  function Glue(a: string, b: string): string {
    if |a| == 0 then b else if |b| == 0 then a else a + "\n" + b
  }

  lemma {:induction false} JoinNonEmptyEmpty(xs: seq<string>)
    ensures |JoinNonEmpty(xs)| == 0 <==> |NonEmpty(xs)| == 0
  {
    var n := NonEmpty(xs);
    if |n| > 0 {
      JoinHeadLength(n);
    }
  }

  lemma JoinHeadLength(n: seq<string>)
    requires |n| > 0 && |n[0]| > 0
    ensures |Join(n, "\n")| > 0
  {
  }

  lemma {:induction false} NonEmptyAppend(a: seq<string>, b: seq<string>)
    ensures NonEmpty(a + b) == NonEmpty(a) + NonEmpty(b)
  {
    if |a| > 0 {
      assert (a + b)[1..] == a[1..] + b;
      NonEmptyAppend(a[1..], b);
    } else {
      assert a + b == b;
    }
  }

  lemma JoinNonEmptyAppend(a: seq<string>, b: seq<string>)
    ensures JoinNonEmpty(a + b) == Glue(JoinNonEmpty(a), JoinNonEmpty(b))
  {
    NonEmptyAppend(a, b);
    JoinNonEmptyEmpty(a);
    JoinNonEmptyEmpty(b);
    if |NonEmpty(a)| > 0 && |NonEmpty(b)| > 0 {
      JoinAppend(NonEmpty(a), NonEmpty(b), "\n");
    } else if |NonEmpty(a)| == 0 {
      assert NonEmpty(a) + NonEmpty(b) == NonEmpty(b);
    } else {
      assert NonEmpty(a) + NonEmpty(b) == NonEmpty(a);
    }
  }

  lemma JoinNonEmptySingle(x: string)
    ensures JoinNonEmpty([x]) == x
  {
    assert [x][1..] == [];
  }

  /** The formatter prints the outline: the placeholder appears only for
      an empty top-level dict, never for a nested one. */
  lemma {:induction false} FormatIsOutline(s: Structure, indent: string)
    ensures FormatStructure(s, indent)
            == if |s.entries| == 0 then StructurePlaceholder else JoinNonEmpty(Outline(s.entries, indent))
    decreases s, 1
  {
    if |s.entries| > 0 {
      FormattedIsOutline(s.entries, indent);
    }
  }

  lemma {:induction false} FormattedIsOutline(es: seq<Entry>, indent: string)
    ensures JoinNonEmpty(Formatted(es, indent)) == JoinNonEmpty(Outline(es, indent))
    decreases es, 0
  {
    if |es| > 0 {
      var e := es[0];
      FormattedIsOutline(es[1..], indent);
      var head := [indent + e.key];
      match e.value {
        case FileMarker =>
          JoinNonEmptyAppend(head, Formatted(es[1..], indent));
          assert Outline(es, indent) == head + [] + Outline(es[1..], indent);
          assert head + [] == head;
          JoinNonEmptyAppend(head, Outline(es[1..], indent));
        case Nested(sub) =>
          var inner := if |sub.entries| > 0 then [FormatStructure(sub, indent + "  ")] else [];
          assert Formatted(es, indent) == head + inner + Formatted(es[1..], indent);
          JoinNonEmptyAppend(head + inner, Formatted(es[1..], indent));
          JoinNonEmptyAppend(head, inner);
          var o := Outline(sub.entries, indent + "  ");
          assert Outline(es, indent) == head + o + Outline(es[1..], indent);
          JoinNonEmptyAppend(head + o, Outline(es[1..], indent));
          JoinNonEmptyAppend(head, o);
          if |sub.entries| > 0 {
            FormatIsOutline(sub, indent + "  ");
            JoinNonEmptySingle(FormatStructure(sub, indent + "  "));
          } else {
            assert JoinNonEmpty(inner) == "" == JoinNonEmpty(o);
          }
      }
    }
  }

  /** Every outline line starts with the indentation it was given. */
  lemma {:induction false} OutlineIndented(es: seq<Entry>, indent: string)
    ensures forall i :: 0 <= i < |Outline(es, indent)| ==> StartsWith(Outline(es, indent)[i], indent)
    decreases es
  {
    if |es| > 0 {
      var e := es[0];
      OutlineIndented(es[1..], indent);
      var head := [indent + e.key];
      assert StartsWith(indent + e.key, indent) by {
        assert (indent + e.key)[..|indent|] == indent;
      }
      match e.value {
        case FileMarker =>
          assert Outline(es, indent) == head + [] + Outline(es[1..], indent);
        case Nested(sub) =>
          OutlineIndented(sub.entries, indent + "  ");
          var o := Outline(sub.entries, indent + "  ");
          forall i | 0 <= i < |o|
            ensures StartsWith(o[i], indent)
          {
            assert o[i][..|indent|] == o[i][..|indent| + 2][..|indent|];
          }
          assert Outline(es, indent) == head + o + Outline(es[1..], indent);
      }
    }
  }

  /** The structure text of a prompt: the dict's outline, or the
      placeholder for a missing, `None` or empty dict. */
  function StructureText(s: Slot<Structure>): string {
    match Get(s, Structure([]))
    case None => StructurePlaceholder
    case Some(st) => FormatStructure(st, "")
  }

  // ---------------------------------------------------------------------
  // Commit summary (lines 654-663)
  // ---------------------------------------------------------------------

  const HistoryPlaceholder := "Recent development activity analysis in progress..."
  const ShownCommits: nat := 5

  function CommitLine(c: CommitDict): string {
    "- **" + Show(Get(c.hash, "N/A")) + "**: " + Show(Get(c.message, "No message"))
    + " (by " + Show(Get(c.author, "Unknown")) + ")"
  }

  /** `_format_git_history_detailed`. */
  function FormatGitHistory(h: Slot<seq<CommitDict>>): (r: string)
    ensures !(h.Value? && |h.v| > 0) ==> r == HistoryPlaceholder
  {
    match Get(h, [])
    case None => HistoryPlaceholder
    case Some(cs) =>
      if |cs| == 0 then HistoryPlaceholder
      else
        var shown := if |cs| <= ShownCommits then cs else cs[..ShownCommits];
        Join(seq(|shown|, i requires 0 <= i < |shown| => CommitLine(shown[i])), "\n")
  }

  /** Only the first five commits are summarised: later ones change
      nothing. */
  lemma HistoryShowsFirstFive(cs: seq<CommitDict>, more: seq<CommitDict>)
    requires |cs| == ShownCommits
    ensures FormatGitHistory(Value(cs + more)) == FormatGitHistory(Value(cs))
  {
    var h := cs + more;
    var shown := if |h| <= ShownCommits then h else h[..ShownCommits];
    assert shown == cs;
    assert seq(|shown|, i requires 0 <= i < |shown| => CommitLine(shown[i]))
        == seq(|cs|, i requires 0 <= i < |cs| => CommitLine(cs[i]));
  }

  /** The summary starts with the newest commit's line. */
  lemma HistoryStartsWithNewest(cs: seq<CommitDict>)
    requires |cs| > 0
    ensures StartsWith(FormatGitHistory(Value(cs)), CommitLine(cs[0]))
  {
    var shown := if |cs| <= ShownCommits then cs else cs[..ShownCommits];
    var lines := seq(|shown|, i requires 0 <= i < |shown| => CommitLine(shown[i]));
    assert FormatGitHistory(Value(cs)) == Join(lines, "\n");
    JoinStartsWith(lines, "\n");
  }

  /** The summary peels off one commit at a time: the newest commit's
      line, a newline, then the summary of the following commits up to the
      fifth. With HistoryStartsWithNewest this fixes every shown line, in
      log order. */
  lemma HistoryPeel(cs: seq<CommitDict>)
    requires 1 < |cs|
    ensures FormatGitHistory(Value(cs))
            == CommitLine(cs[0]) + "\n"
               + FormatGitHistory(Value(cs[1..if |cs| <= ShownCommits then |cs| else ShownCommits]))
  {
    var m := if |cs| <= ShownCommits then |cs| else ShownCommits;
    var shown := if |cs| <= ShownCommits then cs else cs[..ShownCommits];
    assert shown == cs[..m];
    var lines := seq(|shown|, i requires 0 <= i < |shown| => CommitLine(shown[i]));
    assert FormatGitHistory(Value(cs)) == Join(lines, "\n");
    var t := cs[1..m];
    var tail := seq(|t|, i requires 0 <= i < |t| => CommitLine(t[i]));
    assert FormatGitHistory(Value(t)) == Join(tail, "\n");
    assert tail == lines[1..];
  }

  /** A single commit is summarised by its line alone, where the peeling
      ends. */
  lemma HistoryOfOne(c: CommitDict)
    ensures FormatGitHistory(Value([c])) == CommitLine(c)
  {
    var lines := seq(1, i requires 0 <= i < 1 => CommitLine([c][i]));
    assert FormatGitHistory(Value([c])) == Join(lines, "\n");
  }

  /** A commit dict without keys is summarised with the three defaults. */
  lemma CommitDefaults()
    ensures CommitLine(CommitDict(Missing, Missing, Missing))
            == "- **" + "N/A" + "**: " + "No message" + " (by " + "Unknown" + ")"
  {
  }

  // ---------------------------------------------------------------------
  // The two prompts and the generation step
  // ---------------------------------------------------------------------

  /** The tutorial branch is taken exactly when a tutorial component is
      selected. */
  predicate IsTutorialId(id: string) {
    id == "tutorial" || id == "code-examples" || id == "step-by-step"
  }

  function IsTutorial(ids: seq<string>): (r: bool)
    ensures r <==> exists i :: 0 <= i < |ids| && IsTutorialId(ids[i])
  {
    if |ids| == 0 then false
    else
      assert forall i :: 1 <= i < |ids| ==> ids[i] == ids[1..][i - 1];
      IsTutorialId(ids[0]) || IsTutorial(ids[1..])
  }

  /** `str.title()` of a lower-case enumeration name. */
  function TitleWord(w: string): (r: string)
    ensures |r| == |w|
  {
    if |w| == 0 then "" else [UpperChar(w[0])] + w[1..]
  }

  /** The interpolated lines of the tutorial prompt, in template order. */
  function TutorialLines(req: DocumentationRequest, d: AnalysisDict, language: string, fence: string): seq<string> {
    [ "Repository URL: " + req.repoUrl,
      "Project: " + RepoName(d),
      "Description: " + Description(d, req.projectDescription),
      "Primary Language: " + language,
      "Technologies: " + TechnologyLine(d.technologies, "Auto-detecting"),
      "Target Audience: " + TitleWord(AudienceName(req.targetAudience)) + " developers",
      "Writing Tone: " + TitleWord(ToneName(req.tone)),
      StructureText(d.structure),
      "Complete " + RepoName(d) + " Tutorial",
      "Difficulty: " + TitleWord(AudienceName(req.targetAudience)),
      "```" + fence, "```" + fence, "```" + fence, "```" + fence,
      "Every code block must use correct " + language + " syntax",
      "Assume " + AudienceName(req.targetAudience) + " knowledge level throughout",
      "Maintain " + ToneName(req.tone) + " tone while being encouraging",
      "Generate a tutorial that transforms a " + AudienceName(req.targetAudience)
        + " developer into someone who can confidently use, modify, and extend this "
        + RepoName(d) + " project." ]
  }

  /** The interpolated lines of the documentation prompt, in template order:
      the project facts, the instructions, and the outline the model is to
      follow. */
  function DocumentationLines(req: DocumentationRequest, d: AnalysisDict, components: string,
                              language: string, fence: string): seq<string> {
    ProjectLines(req, d, language)
      + GuidanceLines(AudienceInstruction(AudienceName(req.targetAudience)), ToneInstruction(ToneName(req.tone)), components)
      + OutlineLines(req, d, language, fence)
  }

  /** The interpolated lines of the outline: the title, the badges, the
      description, the quick facts, the install commands, the three code
      fences and the closing audience note. */
  function OutlineLines(req: DocumentationRequest, d: AnalysisDict, language: string, fence: string): seq<string> {
    [ "Title: " + RepoName(d),
      "License badge: " + License(d) + ", Language badge: " + language,
      "Summary: " + Description(d, req.projectDescription),
      "Language: " + language,
      "License: " + License(d),
      "git clone " + req.repoUrl,
      "cd " + RepoName(d),
      "```" + fence, "```" + fence, "```" + fence,
      "Clear for " + AudienceName(req.targetAudience) + " developers" ]
  }

  /** The project facts at the head of the documentation prompt. */
  function ProjectLines(req: DocumentationRequest, d: AnalysisDict, language: string): (r: seq<string>)
    ensures |r| == 9
  {
    [ "Repository: " + RepoName(d),
      "URL: " + req.repoUrl,
      "Description: " + Description(d, req.projectDescription),
      "Language: " + language,
      "Tech Stack: " + TechnologyLine(d.technologies, "Auto-detecting from codebase"),
      "License: " + License(d),
      "Documentation Format: " + Upper(FormatName(req.outputFormat)),
      StructureText(d.structure),
      FormatGitHistory(d.gitHistory) ]
  }

  /** The audience, tone and component instructions. */
  function GuidanceLines(audience: string, tone: string, components: string): seq<string> {
    [ "TARGET AUDIENCE: " + audience,
      "WRITING STYLE: " + tone,
      "REQUIRED COMPONENTS:",
      components ]
  }

  /** The prompt as written: building either prompt raises on a `None`
      language, before the model is called. */
  function BuildPromptAsWritten(req: DocumentationRequest, d: AnalysisDict): (r: Result<string>)
    ensures r.Failure? <==> d.language.NoneValue?
    ensures r.Failure? ==> r.error == "'NoneType' object has no attribute 'lower'"
  {
    match FenceTagAsWritten(d)
    case Failure(e) => Failure(e)
    case Success(fence) =>
      if IsTutorial(req.selectedComponents) then
        Success(Join(TutorialLines(req, d, LanguageAsWritten(d), fence), "\n"))
      else
        Success(Join(DocumentationLines(req, d, ComponentsText(req.selectedComponents), LanguageAsWritten(d), fence), "\n"))
  }

  /** The prompt with the language fallback applied to `None` as well. */
  method BuildPrompt(req: DocumentationRequest, d: AnalysisDict) returns (prompt: string, lines: seq<string>)
    ensures prompt == Join(lines, "\n")
    ensures IsTutorial(req.selectedComponents)
            ==> lines == TutorialLines(req, d, Language(d), FenceTag(d))
    ensures !IsTutorial(req.selectedComponents)
            ==> lines == DocumentationLines(req, d, ComponentsText(req.selectedComponents), Language(d), FenceTag(d))
  {
    if IsTutorial(req.selectedComponents) {
      lines := TutorialLines(req, d, Language(d), FenceTag(d));
    } else {
      var components := ComponentsInstructions(req.selectedComponents);
      lines := DocumentationLines(req, d, components, Language(d), FenceTag(d));
    }
    prompt := Join(lines, "\n");
  }

  /** `generate_documentation` as written: the prompt is built before the
      `try`, so an error raised while building it leaves the service as it
      is, unprefixed, and the model is not called. Only a failing model
      call is reported under the service's prefix. */
  method GenerateDocumentation(req: DocumentationRequest, d: AnalysisDict, model: string -> Result<string>)
    returns (r: Result<string>, prompt: Option<string>)
    ensures d.language.NoneValue? <==> prompt.None?
    ensures d.language.NoneValue? ==> r == Failure("'NoneType' object has no attribute 'lower'")
    ensures prompt.Some? && IsTutorial(req.selectedComponents)
            ==> prompt.value == Join(TutorialLines(req, d, LanguageAsWritten(d), Lower(LanguageAsWritten(d))), "\n")
    ensures prompt.Some? && !IsTutorial(req.selectedComponents)
            ==> prompt.value == Join(DocumentationLines(req, d, ComponentsText(req.selectedComponents),
                                                        LanguageAsWritten(d), Lower(LanguageAsWritten(d))), "\n")
    ensures prompt.Some? && model(prompt.value).Success? ==> r == model(prompt.value)
    ensures prompt.Some? && model(prompt.value).Failure?
            ==> r == Failure("Failed to generate documentation: " + model(prompt.value).error)
  {
    var built := BuildPromptAsWritten(req, d);
    if built.Failure? {
      r, prompt := Failure(built.error), None;
      return;
    }
    prompt := Some(built.value);
    var reply := model(built.value);
    match reply {
      case Success(text) => r := Success(text);
      case Failure(e) => r := Failure("Failed to generate documentation: " + e);
    }
  }

  /** The same service with the language fallback: the prompt always
      builds, and the model's failure is the only failure. */
  method GenerateDocumentationWithFallback(req: DocumentationRequest, d: AnalysisDict, model: string -> Result<string>)
    returns (r: Result<string>, prompt: string)
    ensures IsTutorial(req.selectedComponents)
            ==> prompt == Join(TutorialLines(req, d, Language(d), FenceTag(d)), "\n")
    ensures !IsTutorial(req.selectedComponents)
            ==> prompt == Join(DocumentationLines(req, d, ComponentsText(req.selectedComponents), Language(d), FenceTag(d)), "\n")
    ensures model(prompt).Success? ==> r == model(prompt)
    ensures model(prompt).Failure? ==> r == Failure("Failed to generate documentation: " + model(prompt).error)
  {
    var lines;
    prompt, lines := BuildPrompt(req, d);
    var reply := model(prompt);
    match reply {
      case Success(text) => r := Success(text);
      case Failure(e) => r := Failure("Failed to generate documentation: " + e);
    }
  }

  // ---------------------------------------------------------------------
  // Properties of the prompts
  // ---------------------------------------------------------------------

  /** The documentation prompt carries the audience, tone and component
      instructions it computed. */
  lemma DocumentationPromptCarriesInstructions(req: DocumentationRequest, d: AnalysisDict, c: string,
                                               language: string, fence: string)
    ensures Within(Join(DocumentationLines(req, d, c, language, fence), "\n"),
                   "TARGET AUDIENCE: " + AudienceInstruction(AudienceName(req.targetAudience)))
    ensures Within(Join(DocumentationLines(req, d, c, language, fence), "\n"),
                   "WRITING STYLE: " + ToneInstruction(ToneName(req.tone)))
    ensures Within(Join(DocumentationLines(req, d, c, language, fence), "\n"), c)
  {
    var ls := DocumentationLines(req, d, c, language, fence);
    DocumentationLinesAt(req, d, c, language, fence);
    WithinJoin(ls, 9, "\n");
    WithinJoin(ls, 10, "\n");
    WithinJoin(ls, 12, "\n");
  }

  /** The tutorial prompt names the request's audience and tone, and the
      repository's name. */
  lemma TutorialPromptCarriesRequest(req: DocumentationRequest, d: AnalysisDict, language: string, fence: string)
    ensures Within(Join(TutorialLines(req, d, language, fence), "\n"),
                   "Assume " + AudienceName(req.targetAudience) + " knowledge level throughout")
    ensures Within(Join(TutorialLines(req, d, language, fence), "\n"),
                   "Maintain " + ToneName(req.tone) + " tone while being encouraging")
    ensures Within(Join(TutorialLines(req, d, language, fence), "\n"),
                   "Complete " + RepoName(d) + " Tutorial")
  {
    var ls := TutorialLines(req, d, language, fence);
    WithinJoin(ls, 8, "\n");
    WithinJoin(ls, 15, "\n");
    WithinJoin(ls, 16, "\n");
  }

  /** Where the instructions sit among the template's lines. */
  lemma DocumentationLinesAt(req: DocumentationRequest, d: AnalysisDict, c: string,
                             language: string, fence: string)
    ensures |DocumentationLines(req, d, c, language, fence)| == 24
    ensures DocumentationLines(req, d, c, language, fence)[9]
            == "TARGET AUDIENCE: " + AudienceInstruction(AudienceName(req.targetAudience))
    ensures DocumentationLines(req, d, c, language, fence)[10]
            == "WRITING STYLE: " + ToneInstruction(ToneName(req.tone))
    ensures DocumentationLines(req, d, c, language, fence)[12] == c
  {
    PartsAt(ProjectLines(req, d, language),
            GuidanceLines(AudienceInstruction(AudienceName(req.targetAudience)), ToneInstruction(ToneName(req.tone)), c),
            OutlineLines(req, d, language, fence));
  }

  lemma PartsAt(p: seq<string>, g: seq<string>, f: seq<string>)
    requires |p| == 9 && |g| == 4
    ensures |p + g + f| == 13 + |f|
    ensures (p + g + f)[9] == g[0] && (p + g + f)[10] == g[1] && (p + g + f)[12] == g[3]
  {
  }

  /** As written, an analysis with no recognised language makes prompt
      building raise, whichever prompt is chosen. */
  lemma LanguageNoneFails(req: DocumentationRequest, a: RepoAnalysis, technologies: seq<string>)
    requires forall t :: t in technologies <==> t in a.technologies
    requires a.language.None?
    ensures BuildPromptAsWritten(req, AsDict(a, technologies))
            == Failure("'NoneType' object has no attribute 'lower'")
  {
  }

  /** With the fallback, every analysis gets a non-empty language and a
      code-fence tag, whatever its language slot holds. */
  lemma LanguageAlwaysShown(d: AnalysisDict)
    ensures |Language(d)| > 0 && |FenceTag(d)| == |Language(d)|
    ensures d.language.NoneValue? ==> Language(d) == UnknownLanguage && FenceTag(d) == "unknown"
  {
  }
}
