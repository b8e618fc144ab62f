/**
 The tutorial panel: it builds a tutorial request from its own choices
 and the page's inputs, turns the reply into a titled tutorial or an
 error notice, and guards its two downloads. The HTTP call is a
 parameter.
 */
module TutorialGenerator {
  import opened Text
  import opened Schemas
  import AiService

  /** The request as the client sends it: the wire names of the
      enumerations are plain strings here. */
  datatype ClientRequest = ClientRequest(
    repoUrl: string,
    projectDescription: string,
    targetAudience: string,
    tone: string,
    outputFormat: string,
    primaryLanguage: Option<string>,
    selectedComponents: seq<string>)

  /** What the API call gives back: a response, or an exception with its
      message. */
  datatype ApiOutcome = Responded(response: DocumentationResponse) | Threw(message: string)

  /** The panel's state. */
  datatype Panel = Panel(tutorialType: string, complexity: Audience, isGenerating: bool, generatedTutorial: string)

  const InitialPanel := Panel("getting-started", Beginner, false, "")

  /** The label of a tutorial type, when the type is one of the six. */
  function TypeLabel(t: string): Option<string> {
    if t == "getting-started" then Some("Getting Started Guide")
    else if t == "advanced-features" then Some("Advanced Features")
    else if t == "integration" then Some("Integration Tutorial")
    else if t == "deployment" then Some("Deployment Guide")
    else if t == "best-practices" then Some("Best Practices")
    else if t == "troubleshooting" then Some("Troubleshooting Guide")
    else None
  }

  /** `${selectedType?.label}`: an unknown type interpolates as "undefined". */
  function LabelText(t: string): string {
    match TypeLabel(t)
    case Some(l) => l
    case None => "undefined"
  }

  const TutorialComponents: seq<string> := ["tutorial", "code-examples", "step-by-step"]

  /** The request of `handleGenerateTutorial`. */
  function TutorialRequest(p: Panel, repoUrl: string, projectDescription: Option<string>, tone: string,
                           primaryLanguage: Option<string>): (r: ClientRequest)
    ensures r.selectedComponents == TutorialComponents && r.outputFormat == "markdown"
    ensures r.targetAudience == AudienceName(p.complexity)
    ensures r.repoUrl == repoUrl && r.tone == tone && r.primaryLanguage == primaryLanguage
    ensures AiService.Truthy(projectDescription) ==> r.projectDescription == projectDescription.value
    ensures !AiService.Truthy(projectDescription)
            ==> r.projectDescription == "Generate a " + LabelText(p.tutorialType) + " tutorial for this project"
  {
    ClientRequest(
      repoUrl,
      if AiService.Truthy(projectDescription) then projectDescription.value
      else "Generate a " + LabelText(p.tutorialType) + " tutorial for this project",
      AudienceName(p.complexity),
      tone,
      "markdown",
      primaryLanguage,
      TutorialComponents)
  }

  /** The tutorial request always takes the backend's tutorial branch. */
  lemma TutorialRequestIsTutorial()
    ensures AiService.IsTutorial(TutorialComponents)
  {
    assert AiService.IsTutorialId(TutorialComponents[0]);
  }

  /** What the user is told, and what is handed to the page. */
  datatype Notice =
    | MissingUrl
    | Generated(content: string, metadata: Option<Metadata>)
    | Failed(message: string)

  const FallbackError := "Failed to generate tutorial"

  /** The stored and emitted tutorial: the type's label as a title over
      the returned text. */
  function Titled(title: string, documentation: string): string {
    "# " + title + "\n\n" + documentation
  }

  /** The title line and the returned text can be read back from the
      stored tutorial. */
  lemma TitledRoundTrip(title: string, documentation: string)
    ensures StartsWith(Titled(title, documentation), "# " + title)
    ensures Titled(title, documentation)[|title| + 4..] == documentation
  {
    var t := Titled(title, documentation);
    assert t == ("# " + title) + ("\n\n" + documentation);
    assert t[..|title| + 2] == "# " + title;
  }

  /** `handleGenerateTutorial`, from click to `finally`. */
  function Generate(p: Panel, repoUrl: string, projectDescription: Option<string>, tone: string,
                    primaryLanguage: Option<string>, api: ClientRequest -> ApiOutcome): (r: (Panel, Notice))
    ensures repoUrl == "" ==> r == (p, MissingUrl)
    ensures !r.0.isGenerating || (repoUrl == "" && p.isGenerating)
    ensures r.0.tutorialType == p.tutorialType && r.0.complexity == p.complexity
    ensures r.1.Generated? ==> r.0.generatedTutorial == r.1.content
    ensures !r.1.Generated? ==> r.0.generatedTutorial == p.generatedTutorial
  {
    if repoUrl == "" then (p, MissingUrl)
    else
      var outcome := api(TutorialRequest(p, repoUrl, projectDescription, tone, primaryLanguage));
      var notice := Reply(p.tutorialType, outcome);
      var stored := if notice.Generated? then notice.content else p.generatedTutorial;
      (p.(isGenerating := false, generatedTutorial := stored), notice)
  }

  /** The reply's meaning: a successful response with text becomes the
      titled tutorial; anything else becomes an error message, the
      response's own when it has a non-empty one. */
  function Reply(tutorialType: string, outcome: ApiOutcome): (n: Notice)
    ensures n != MissingUrl
    ensures n.Generated? <==> outcome.Responded? && outcome.response.success
                              && AiService.Truthy(outcome.response.documentation)
    ensures n.Generated? ==> n.content == Titled(LabelText(tutorialType), outcome.response.documentation.value)
                             && n.metadata == outcome.response.metadata
    ensures outcome.Threw? ==> n == Failed(outcome.message)
    ensures n.Failed? && outcome.Responded? && AiService.Truthy(outcome.response.error)
            ==> n.message == outcome.response.error.value
    ensures n.Failed? && outcome.Responded? && !AiService.Truthy(outcome.response.error)
            ==> n.message == FallbackError
  {
    match outcome
    case Threw(m) => Failed(m)
    case Responded(resp) =>
      if resp.success && AiService.Truthy(resp.documentation) then
        Generated(Titled(LabelText(tutorialType), resp.documentation.value), resp.metadata)
      else if AiService.Truthy(resp.error) then Failed(resp.error.value)
      else Failed(FallbackError)
  }

  /** A failed generation keeps the tutorial shown before it. */
  lemma FailureKeepsTutorial(p: Panel, repoUrl: string, projectDescription: Option<string>, tone: string,
                             primaryLanguage: Option<string>, api: ClientRequest -> ApiOutcome)
    requires repoUrl != ""
    requires api(TutorialRequest(p, repoUrl, projectDescription, tone, primaryLanguage)).Threw?
    ensures Generate(p, repoUrl, projectDescription, tone, primaryLanguage, api).0
            == p.(isGenerating := false)
  {
  }

  // ---------------------------------------------------------------------
  // Downloads and the badge (lines 89-112, 201)
  // ---------------------------------------------------------------------

  /** The Markdown download: refused while there is no tutorial. */
  function DownloadMarkdown(p: Panel): (r: Option<(string, string, string)>)
    ensures r.None? <==> p.generatedTutorial == ""
    ensures r.Some? ==> r.value.2 == p.generatedTutorial && r.value.1 == "text/markdown"
    ensures r.Some? ==> r.value.0 == "tutorial-" + p.tutorialType + ".md"
  {
    if p.generatedTutorial == "" then None
    else Some(("tutorial-" + p.tutorialType + ".md", "text/markdown", p.generatedTutorial))
  }

  /** The PDF export: refused while there is no tutorial; otherwise the
      tutorial goes to the PDF export under the type's base name. */
  function DownloadPdf(p: Panel): (r: Option<(string, string)>)
    ensures r.None? <==> p.generatedTutorial == ""
    ensures r.Some? ==> r.value.0 == p.generatedTutorial && r.value.1 == "tutorial-" + p.tutorialType
  {
    if p.generatedTutorial == "" then None
    else Some((p.generatedTutorial, "tutorial-" + p.tutorialType))
  }

  /** The Markdown file name is the PDF base name with the extension. */
  lemma DownloadNamesAgree(p: Panel)
    requires p.generatedTutorial != ""
    ensures DownloadMarkdown(p).value.0 == DownloadPdf(p).value.1 + ".md"
  {
  }

  /** `tutorialType.replace('-', ' ')`. */
  function Badge(tutorialType: string): string {
    ReplaceFirstChar(tutorialType, '-', ' ')
  }

  /** Only the first hyphen becomes a space; a later one stays. */
  lemma BadgeFirstHyphenOnly(t: string, p: nat)
    requires p < |t| && t[p] == '-'
    requires forall i :: 0 <= i < p ==> t[i] != '-'
    ensures Badge(t) == t[..p] + " " + t[p + 1..]
    ensures forall i :: p < i < |t| ==> Badge(t)[i] == t[i]
  {
    ReplaceFirstCharAt(t, '-', ' ', p);
  }

  /** A type without a hyphen is shown as it is. */
  lemma BadgeWithoutHyphen(t: string)
    requires forall i :: 0 <= i < |t| ==> t[i] != '-'
    ensures Badge(t) == t
  {
    ReplaceFirstCharAbsent(t, '-', ' ');
  }
}
