/**
 The simulated generation of the documentation panel: after the URL
 check it shows six step labels in turn, raising the progress bar after
 each, then clears the busy flag and notifies the page once. The waits
 between steps are left out; what the user sees is the sequence of
 state changes, recorded as a trace of events.
 */
module DocumentationGenerator {

  const GenerationSteps: seq<string> := [
    "Cloning repository...",
    "Analyzing codebase...",
    "Detecting technologies...",
    "Generating documentation...",
    "Formatting output...",
    "Finalizing..."
  ]

  const MissingUrl := "Please enter a GitHub repository URL"

  /** A visible state change or callback of `handleGenerate`. */
  datatype Event =
    | ShowError(message: string)
    | SetGenerating(on: bool)
    | SetProgress(percent: real)
    | ShowStep(step: string)
    | OnGenerate
    | ShowSuccess

  /** The labels shown, in order. */
  function Labels(es: seq<Event>): seq<string> {
    if |es| == 0 then []
    else Labels(es[..|es| - 1]) + (if es[|es| - 1].ShowStep? then [es[|es| - 1].step] else [])
  }

  /** The progress values set, in order. */
  function Progresses(es: seq<Event>): seq<real> {
    if |es| == 0 then []
    else Progresses(es[..|es| - 1]) + (if es[|es| - 1].SetProgress? then [es[|es| - 1].percent] else [])
  }

  /** The progress after step `i` of `n`: `((i + 1) / n) * 100`. */
  function StepProgress(i: nat, n: nat): real
    requires n > 0
  {
    ((i + 1) as real / n as real) * 100.0
  }

  /** The values set after the first `i` steps. */
  function StepValues(i: nat, n: nat): (r: seq<real>)
    requires n > 0
    ensures |r| == i
  {
    if i == 0 then [] else StepValues(i - 1, n) + [StepProgress(i - 1, n)]
  }

  lemma {:induction false} StepValuesAt(i: nat, n: nat)
    requires n > 0
    ensures forall k :: 0 <= k < i ==> StepValues(i, n)[k] == StepProgress(k, n)
  {
    if i > 0 {
      StepValuesAt(i - 1, n);
    }
  }

  predicate StrictlyIncreasing(xs: seq<real>) {
    forall i, j :: 0 <= i < j < |xs| ==> xs[i] < xs[j]
  }

  /** `handleGenerate`. */
  method Generate(repoUrl: string) returns (es: seq<Event>)
    ensures repoUrl == "" ==> es == [ShowError(MissingUrl)]
    ensures repoUrl != "" ==> Labels(es) == GenerationSteps
    ensures repoUrl != "" ==> |Progresses(es)| == |GenerationSteps| + 1 && Progresses(es)[0] == 0.0
    ensures repoUrl != "" ==> forall i :: 0 <= i < |GenerationSteps| ==> Progresses(es)[i + 1] == StepProgress(i, |GenerationSteps|)
    ensures repoUrl != "" ==> StrictlyIncreasing(Progresses(es))
    ensures repoUrl != "" ==> Progresses(es)[|GenerationSteps|] == 100.0
    ensures repoUrl != "" ==> multiset(es)[OnGenerate] == 1
    ensures repoUrl != "" ==> |es| >= 3 && es[|es| - 2] == OnGenerate && es[|es| - 3] == SetGenerating(false)
    ensures repoUrl != "" ==> forall k :: 0 <= k < |es| ==> !es[k].ShowError?
  {
    if repoUrl == "" {
      es := [ShowError(MissingUrl)];
      return;
    }
    es := RunSteps(GenerationSteps);
  }

  /** The sequence for any non-empty list of step labels. */
  method RunSteps(steps: seq<string>) returns (es: seq<Event>)
    requires |steps| > 0
    ensures Labels(es) == steps
    ensures |Progresses(es)| == |steps| + 1 && Progresses(es)[0] == 0.0
    ensures forall i :: 0 <= i < |steps| ==> Progresses(es)[i + 1] == StepProgress(i, |steps|)
    ensures StrictlyIncreasing(Progresses(es)) && Progresses(es)[|steps|] == 100.0
    ensures multiset(es)[OnGenerate] == 1
    ensures |es| >= 3 && es[|es| - 2] == OnGenerate && es[|es| - 3] == SetGenerating(false)
    ensures forall k :: 0 <= k < |es| ==> !es[k].ShowError?
  {
    es := ShowSteps(steps);
    var n := |steps|;
    var done := es;
    es := Append(es, SetGenerating(false));
    es := Append(es, OnGenerate);
    es := Append(es, ShowSuccess);
    Closing(done, es);
    StepValuesAt(n, n);
    ProgressRises(Progresses(es), n);
  }

  /** The three closing events after the steps: the busy flag cleared,
      the one notification, the success message. */
  lemma Closing(done: seq<Event>, es: seq<Event>)
    requires es == done + [SetGenerating(false)] + [OnGenerate] + [ShowSuccess]
    requires OnGenerate !in done
    requires forall k :: 0 <= k < |done| ==> !done[k].ShowError?
    ensures multiset(es)[OnGenerate] == 1
    ensures |es| >= 3 && es[|es| - 2] == OnGenerate && es[|es| - 3] == SetGenerating(false)
    ensures forall k :: 0 <= k < |es| ==> !es[k].ShowError?
  {
    assert multiset(done)[OnGenerate] == 0;
    assert es == done + [SetGenerating(false), OnGenerate, ShowSuccess];
  }

  /** The busy flag, the reset and the labels with their progress values. */
  method ShowSteps(steps: seq<string>) returns (es: seq<Event>)
    requires |steps| > 0
    ensures Labels(es) == steps
    ensures Progresses(es) == [0.0] + StepValues(|steps|, |steps|)
    ensures OnGenerate !in es
    ensures forall k :: 0 <= k < |es| ==> !es[k].ShowError?
  {
    es := Append([], SetGenerating(true));
    es := Append(es, SetProgress(0.0));
    var n := |steps|;
    var i := 0;
    while i < n
      invariant 0 <= i <= n
      invariant Labels(es) == steps[..i]
      invariant Progresses(es) == [0.0] + StepValues(i, n)
      invariant OnGenerate !in es
      invariant forall k :: 0 <= k < |es| ==> !es[k].ShowError?
    {
      assert steps[..i + 1] == steps[..i] + [steps[i]];
      es := Append(es, ShowStep(steps[i]));
      es := Append(es, SetProgress(StepProgress(i, n)));
      i := i + 1;
    }
    assert steps[..n] == steps;
  }

  /** A progress record that starts at 0 and then holds the step values
      rises strictly and ends at 100. */
  lemma ProgressRises(ps: seq<real>, n: nat)
    requires n > 0 && |ps| == n + 1 && ps[0] == 0.0
    requires forall k :: 0 <= k < n ==> ps[k + 1] == StepProgress(k, n)
    ensures StrictlyIncreasing(ps) && ps[n] == 100.0
  {
    ProgressValues(n);
    forall a, b | 0 <= a < b < |ps|
      ensures ps[a] < ps[b]
    {
      assert ps[b] == StepProgress(b - 1, n);
      if a > 0 {
        assert ps[a] == StepProgress(a - 1, n);
      }
    }
  }

  /** Appending an event extends the label and progress records by what
      it shows, if anything. */
  method Append(es: seq<Event>, e: Event) returns (r: seq<Event>)
    ensures r == es + [e]
    ensures e.ShowStep? ==> Labels(r) == Labels(es) + [e.step]
    ensures !e.ShowStep? ==> Labels(r) == Labels(es)
    ensures e.SetProgress? ==> Progresses(r) == Progresses(es) + [e.percent]
    ensures !e.SetProgress? ==> Progresses(r) == Progresses(es)
  {
    r := es + [e];
    assert r[..|r| - 1] == es;
  }

  /** The step values rise strictly, start above the initial 0 and end at
      exactly 100. */
  lemma ProgressValues(n: nat)
    requires n > 0
    ensures forall i, j :: 0 <= i < j < n ==> StepProgress(i, n) < StepProgress(j, n)
    ensures forall i :: 0 <= i < n ==> 0.0 < StepProgress(i, n)
    ensures StepProgress(n - 1, n) == 100.0
  {
    var d := n as real;
    forall i, j | 0 <= i < j < n
      ensures StepProgress(i, n) < StepProgress(j, n)
    {
      DivLess((i + 1) as real, (j + 1) as real, d);
    }
    forall i | 0 <= i < n
      ensures 0.0 < StepProgress(i, n)
    {
      DivLess(0.0, (i + 1) as real, d);
    }
    LastStep(n);
  }

  lemma LastStep(n: nat)
    requires n > 0
    ensures StepProgress(n - 1, n) == 100.0
  {
    var d := n as real;
    assert d / d == 1.0;
  }

  /** Division by a positive number keeps the order. */
  lemma DivLess(x: real, y: real, d: real)
    requires 0.0 < d && x < y
    ensures x / d < y / d
  {
    assert y / d - x / d == (y - x) / d;
  }

  /** The trigger's disabled state. */
  predicate Disabled(isGenerating: bool, repoUrl: string) {
    isGenerating || repoUrl == ""
  }

  /** An enabled trigger never meets the URL check, so every click it
      accepts runs the full sequence. */
  method EnabledClickRuns(repoUrl: string) returns (es: seq<Event>)
    requires !Disabled(false, repoUrl)
    ensures Labels(es) == GenerationSteps
    ensures ShowError(MissingUrl) !in es
  {
    es := Generate(repoUrl);
  }
}
