/**
 The request, response and repository-analysis shapes the backend passes
 around, with the three closed enumerations of the request and the
 defaults a request gets for every field the client leaves out.
 */
module Schemas {
  import opened Text

  // ---------------------------------------------------------------------
  // Enumerations, each with its wire name
  // ---------------------------------------------------------------------

  datatype Tone = Professional | Friendly | Technical | Fun
  datatype Audience = Beginner | Intermediate | Advanced
  datatype Format = Readme | Markdown | Html | Pdf

  const Tones: seq<Tone> := [Professional, Friendly, Technical, Fun]
  const Audiences: seq<Audience> := [Beginner, Intermediate, Advanced]
  const Formats: seq<Format> := [Readme, Markdown, Html, Pdf]

  function ToneName(t: Tone): string {
    match t
    case Professional => "professional"
    case Friendly => "friendly"
    case Technical => "technical"
    case Fun => "fun"
  }

  function AudienceName(a: Audience): string {
    match a
    case Beginner => "beginner"
    case Intermediate => "intermediate"
    case Advanced => "advanced"
  }

  function FormatName(f: Format): string {
    match f
    case Readme => "readme"
    case Markdown => "markdown"
    case Html => "html"
    case Pdf => "pdf"
  }

  /** Request validation of a tone: only the four wire names are accepted. */
  function ParseTone(s: string): (r: Option<Tone>)
    ensures r.Some? ==> ToneName(r.value) == s
  {
    if s == "professional" then Some(Professional)
    else if s == "friendly" then Some(Friendly)
    else if s == "technical" then Some(Technical)
    else if s == "fun" then Some(Fun)
    else None
  }

  function ParseAudience(s: string): (r: Option<Audience>)
    ensures r.Some? ==> AudienceName(r.value) == s
  {
    if s == "beginner" then Some(Beginner)
    else if s == "intermediate" then Some(Intermediate)
    else if s == "advanced" then Some(Advanced)
    else None
  }

  function ParseFormat(s: string): (r: Option<Format>)
    ensures r.Some? ==> FormatName(r.value) == s
  {
    if s == "readme" then Some(Readme)
    else if s == "markdown" then Some(Markdown)
    else if s == "html" then Some(Html)
    else if s == "pdf" then Some(Pdf)
    else None
  }

  /** Every tone's wire name parses back to it, and the four are distinct. */
  lemma ToneRoundTrip(t: Tone)
    ensures ParseTone(ToneName(t)) == Some(t)
    ensures t in Tones
  {
  }

  lemma AudienceRoundTrip(a: Audience)
    ensures ParseAudience(AudienceName(a)) == Some(a)
    ensures a in Audiences
  {
  }

  lemma FormatRoundTrip(f: Format)
    ensures ParseFormat(FormatName(f)) == Some(f)
    ensures f in Formats
  {
  }

  /** The enumerations are closed sets of 4, 3 and 4 distinct values. */
  lemma EnumerationSizes()
    ensures |Tones| == 4 && forall i, j :: 0 <= i < j < |Tones| ==> Tones[i] != Tones[j]
    ensures |Audiences| == 3 && forall i, j :: 0 <= i < j < |Audiences| ==> Audiences[i] != Audiences[j]
    ensures |Formats| == 4 && forall i, j :: 0 <= i < j < |Formats| ==> Formats[i] != Formats[j]
  {
  }

  // ---------------------------------------------------------------------
  // The documentation request
  // ---------------------------------------------------------------------

  /** The component ids a request selects when the client sends none. */
  const DefaultComponents: seq<string> :=
    ["overview", "readme", "installation", "usage", "structure", "technologies", "contributing", "license"]

  /** `repo_url` is kept as the text of the URL; its validation as an HTTP
      URL is library behaviour. */
  datatype DocumentationRequest = DocumentationRequest(
    repoUrl: string,
    projectDescription: Option<string>,
    targetAudience: Audience,
    tone: Tone,
    outputFormat: Format,
    primaryLanguage: Option<string>,
    selectedComponents: seq<string>)

  /** The optional fields of a request as the client may send them. */
  datatype RequestFields = RequestFields(
    projectDescription: Option<string>,
    targetAudience: Option<Audience>,
    tone: Option<Tone>,
    outputFormat: Option<Format>,
    primaryLanguage: Option<string>,
    selectedComponents: Option<seq<string>>)

  /** A request built from what the client sent, each missing field taking
      its declared default. */
  function NewRequest(repoUrl: string, sent: RequestFields): (r: DocumentationRequest)
    ensures r.repoUrl == repoUrl
    ensures r.projectDescription == sent.projectDescription
    ensures r.primaryLanguage == sent.primaryLanguage
    ensures sent.targetAudience.None? ==> r.targetAudience == Intermediate
    ensures sent.tone.None? ==> r.tone == Professional
    ensures sent.outputFormat.None? ==> r.outputFormat == Readme
    ensures sent.selectedComponents.None? ==> r.selectedComponents == DefaultComponents
    ensures sent.targetAudience.Some? ==> r.targetAudience == sent.targetAudience.value
    ensures sent.tone.Some? ==> r.tone == sent.tone.value
    ensures sent.outputFormat.Some? ==> r.outputFormat == sent.outputFormat.value
    ensures sent.selectedComponents.Some? ==> r.selectedComponents == sent.selectedComponents.value
  {
    DocumentationRequest(
      repoUrl,
      sent.projectDescription,
      sent.targetAudience.GetOr(Intermediate),
      sent.tone.GetOr(Professional),
      sent.outputFormat.GetOr(Readme),
      sent.primaryLanguage,
      sent.selectedComponents.GetOr(DefaultComponents))
  }

  /** The default component list holds eight distinct ids. */
  lemma DefaultComponentsDistinct()
    ensures |DefaultComponents| == 8
    ensures forall i, j :: 0 <= i < j < |DefaultComponents| ==> DefaultComponents[i] != DefaultComponents[j]
  {
  }

  // ---------------------------------------------------------------------
  // The repository analysis
  // ---------------------------------------------------------------------

  /** A directory-structure dict: keys in insertion order, each mapped to
      the string "file" or to a nested dict. */
  datatype Structure = Structure(entries: seq<Entry>)
  datatype Entry = Entry(key: string, value: EntryValue)
  datatype EntryValue = FileMarker | Nested(sub: Structure)

  /** One commit as the analysis records it. */
  datatype Commit = Commit(hash: string, message: string, author: string, date: string)

  /** `RepoAnalysis`: description, language and licence may be missing
      (`None`); the other fields are always there. */
  datatype RepoAnalysis = RepoAnalysis(
    name: string,
    description: Option<string>,
    language: Option<string>,
    technologies: set<string>,
    structure: Structure,
    readmeExists: bool,
    licenseType: Option<string>,
    gitHistory: seq<Commit>)

  // ---------------------------------------------------------------------
  // The response
  // ---------------------------------------------------------------------

  /** What a successful response carries besides the text. */
  datatype Metadata = Metadata(repoAnalysis: RepoAnalysis, requestParams: DocumentationRequest)

  datatype DocumentationResponse = DocumentationResponse(
    success: bool,
    documentation: Option<string>,
    error: Option<string>,
    metadata: Option<Metadata>)

  /** A response built from `success` alone: every optional field is
      left at its default, `None`. */
  function BareResponse(success: bool): (r: DocumentationResponse)
    ensures r.success == success
    ensures r.documentation.None? && r.error.None? && r.metadata.None?
  {
    DocumentationResponse(success, None, None, None)
  }
}
