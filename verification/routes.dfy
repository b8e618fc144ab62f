/**
 The two HTTP endpoints: `POST /generate-docs`, which clones, analyses,
 prompts the model and always cleans up, and `GET /health`. The clone's
 outcome, the cloned tree, the git log and the model are parameters.
 */
module Routes {
  import opened Text
  import opened Schemas
  import GitHubService
  import AiService

  /** The service calls the endpoint makes, in order. */
  datatype Step = Clone | Analyze | Generate | Cleanup

  /** `list(set)`: some listing of the set, each member once, in an order
      the set does not fix. */
  method ListOf(s: set<string>) returns (xs: seq<string>)
    ensures forall t :: t in xs <==> t in s
    ensures |xs| == |s|
  {
    xs := [];
    var rest := s;
    while rest != {}
      invariant rest <= s
      invariant forall t :: t in xs <==> t in s - rest
      invariant |xs| + |rest| == |s|
      decreases |rest|
    {
      var t :| t in rest;
      xs := xs + [t];
      rest := rest - {t};
    }
  }

  function Failed(error: string): (r: DocumentationResponse)
    ensures !r.success && r.error == Some(error)
    ensures r.documentation.None? && r.metadata.None?
  {
    DocumentationResponse(false, None, Some(error), None)
  }

  /** `generate_documentation`: every failure becomes a response carrying
      the failing step's message, and the temporary clone is cleaned up
      exactly once, as the last step, on every path. The AI service is the
      one as written, so an analysis without a language fails with the
      prompt's own error. */
  method GenerateDocs(req: DocumentationRequest, cloned: Result<string>, root: GitHubService.Node,
                      repo: GitHubService.GitRepo, model: string -> Result<string>)
    returns (resp: DocumentationResponse, trace: seq<Step>)
    ensures |trace| > 0 && trace[|trace| - 1] == Cleanup && multiset(trace)[Cleanup] == 1
    ensures trace[0] == Clone
    ensures cloned.Failure? ==> resp == Failed("Failed to clone repository: " + cloned.error)
    ensures cloned.Success? && GitHubService.AnalyzeRepository(cloned.value, root, repo).Failure?
            ==> resp == Failed(GitHubService.AnalyzeRepository(cloned.value, root, repo).error)
    ensures cloned.Success? && GitHubService.AnalyzeRepository(cloned.value, root, repo).Success?
            && GitHubService.AnalyzeRepository(cloned.value, root, repo).value.language.None?
            ==> resp == Failed("'NoneType' object has no attribute 'lower'")
    ensures resp.success ==> cloned.Success? && GitHubService.AnalyzeRepository(cloned.value, root, repo).Success?
                             && GitHubService.AnalyzeRepository(cloned.value, root, repo).value.language.Some?
    ensures resp.success ==> resp.metadata == Some(Metadata(GitHubService.AnalyzeRepository(cloned.value, root, repo).value, req))
    ensures resp.success ==> resp.documentation.Some? && resp.error.None?
    ensures resp.success <==> Generate in trace && !resp.error.Some?
    ensures !resp.success ==> resp.error.Some? && resp.documentation.None? && resp.metadata.None?
    ensures (cloned.Success? && GitHubService.AnalyzeRepository(cloned.value, root, repo).Success?
             && GitHubService.AnalyzeRepository(cloned.value, root, repo).value.language.Some?
             && forall p :: model(p).Success?) ==> resp.success
  {
    TracesCleanUpOnce();
    trace := [Clone];
    var path := GitHubService.CloneRepository(cloned);
    if path.Failure? {
      trace := [Clone, Cleanup];
      resp := Failed(path.error);
      return;
    }
    var analysis := GitHubService.AnalyzeRepository(path.value, root, repo);
    if analysis.Failure? {
      trace := [Clone, Analyze, Cleanup];
      resp := Failed(analysis.error);
      return;
    }
    resp := Respond(req, analysis.value, model);
    trace := [Clone, Analyze, Generate, Cleanup];
  }

  /** The part of `generate_documentation` after a successful analysis:
      the analysis as a dictionary, the prompt, the model's reply. */
  method Respond(req: DocumentationRequest, a: RepoAnalysis, model: string -> Result<string>)
    returns (resp: DocumentationResponse)
    ensures a.language.None? ==> resp == Failed("'NoneType' object has no attribute 'lower'")
    ensures resp.success ==> a.language.Some? && resp.metadata == Some(Metadata(a, req))
    ensures resp.success ==> resp.documentation.Some? && resp.error.None?
    ensures !resp.success ==> resp.error.Some? && resp.documentation.None? && resp.metadata.None?
    ensures a.language.Some? && (forall p :: model(p).Success?) ==> resp.success
  {
    var technologies := ListOf(a.technologies);
    var dict := AiService.AsDict(a, technologies);
    var doc, _ := AiService.GenerateDocumentation(req, dict, model);
    if doc.Failure? {
      resp := Failed(doc.error);
    } else {
      resp := DocumentationResponse(true, Some(doc.value), None, Some(Metadata(a, req)));
    }
  }

  /** Each of the three step sequences the endpoint can take cleans up
      exactly once. */
  lemma TracesCleanUpOnce()
    ensures multiset([Clone, Cleanup])[Cleanup] == 1
    ensures multiset([Clone, Analyze, Cleanup])[Cleanup] == 1
    ensures multiset([Clone, Analyze, Generate, Cleanup])[Cleanup] == 1
  {
  }

  /** A repository holding only a README: no file has a known extension. */
  function ReadmeOnly(text: string): GitHubService.Node {
    GitHubService.Dir(true, [GitHubService.Child("README.md", GitHubService.File(true, true, text, None))])
  }

  /** Its README is readable, so analysing it cannot fail, and it counts
      no language. */
  lemma ReadmeOnlyAnalyses(text: string, path: string, log: Option<seq<GitHubService.RawCommit>>)
    ensures GitHubService.AnalyzeRepository(path, ReadmeOnly(text), GitHubService.Repository(log)).Success?
    ensures GitHubService.DetectPrimaryLanguage(ReadmeOnly(text)).None?
  {
    GitHubService.SingleReadmeDescribes(text);
    GitHubService.SingleReadmeNoLanguage(text);
  }

  /** As written, such a repository is analysed without error but has no
      language, and building its prompt then raises. */
  lemma ReadmeOnlyRepositoryFails(text: string, path: string, log: Option<seq<GitHubService.RawCommit>>,
                                  req: DocumentationRequest, technologies: seq<string>)
    requires forall t :: t in technologies <==>
               t in GitHubService.DetectTechnologies(ReadmeOnly(text))
    ensures GitHubService.AnalyzeRepository(path, ReadmeOnly(text), GitHubService.Repository(log)).Success?
    ensures GitHubService.AnalyzeRepository(path, ReadmeOnly(text), GitHubService.Repository(log)).value.language.None?
    ensures AiService.BuildPromptAsWritten(req, AiService.AsDict(
              GitHubService.AnalyzeRepository(path, ReadmeOnly(text), GitHubService.Repository(log)).value,
              technologies)).Failure?
  {
    ReadmeOnlyAnalyses(text, path, log);
    var a := GitHubService.AnalyzeRepository(path, ReadmeOnly(text), GitHubService.Repository(log)).value;
    assert a.language.None?;
    assert forall t :: t in technologies <==> t in a.technologies;
    AiService.LanguageNoneFails(req, a, technologies);
  }

  /** `health_check`: a fixed status document. */
  function Health(): (r: (string, string))
    ensures r.0 == "healthy"
    ensures r.1 == "GitDocAI API"
  {
    ("healthy", "GitDocAI API")
  }
}
