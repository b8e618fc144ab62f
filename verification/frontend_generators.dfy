/**
 The two simulated generators of the `frontend/` application
 (documentation and tutorial). Each resets a progress bar, advances it
 by a capped interval tick, and after a fixed delay sets it to 100 and
 hands a fixed text to the page. Only the timers' effects are modelled:
 a tick is one call of the interval callback, completion is the delayed
 callback.
 */
module FrontendGenerators {
  import DocumentationGenerator

  /** The progress bar and the state of its interval timer. */
  datatype Ticker = Ticker(progress: int, ticking: bool)

  /** The interval callback's update: at 90 or more it pins the value to
      90 and stops the timer, below it adds 10. */
  function Tick(prev: int): (r: (int, bool))
    ensures prev >= 90 ==> r == (90, false)
    ensures prev < 90 ==> r == (prev + 10, true)
  {
    if prev >= 90 then (90, false) else (prev + 10, true)
  }

  /** One timer period: a stopped timer no longer fires. */
  function Step(t: Ticker): Ticker {
    if !t.ticking then t
    else
      var (next, still) := Tick(t.progress);
      Ticker(next, still)
  }

  /** The bar after `k` periods from the reset. */
  function AfterTicks(k: nat): Ticker {
    if k == 0 then Ticker(0, true) else Step(AfterTicks(k - 1))
  }

  /** Closed form of the bar: ten per period, capped at 90; the timer stops
      on the tenth period, the first that finds the bar at 90. */
  lemma {:induction false} AfterTicksClosedForm(k: nat)
    ensures AfterTicks(k).progress == (if 10 * k <= 90 then 10 * k else 90)
    ensures AfterTicks(k).ticking <==> k < 10
  {
    if k > 0 {
      AfterTicksClosedForm(k - 1);
    }
  }

  /** From the reset, the bar only takes the values 0, 10, ..., 90. */
  lemma TicksStayOnGrid(k: nat)
    ensures 0 <= AfterTicks(k).progress <= 90
    ensures AfterTicks(k).progress % 10 == 0
  {
    AfterTicksClosedForm(k);
  }

  /** The component's state. */
  datatype Generator = Generator(isGenerating: bool, progress: int)

  const DocumentationText := "# Documentation Generated\n\nThis is sample documentation content for your repository."
  const TutorialText := "# Tutorial Generated\n\nThis is sample tutorial content for your repository."
  const MarkdownFormat := "markdown"

  /** The button is disabled only while generating: the URL plays no
      part. */
  predicate Disabled(g: Generator, repoUrl: string) {
    g.isGenerating
  }

  /** Unlike the step-by-step generator of the main application, which
      also disables its trigger on an empty URL, this button ignores the
      URL. */
  lemma NoUrlGuard(g: Generator, u: string, v: string)
    ensures Disabled(g, u) == Disabled(g, v)
    ensures !Disabled(Generator(false, 0), "") && DocumentationGenerator.Disabled(false, "")
  {
  }

  /** The click: busy, bar reset, timer started. */
  function Start(g: Generator): (r: (Generator, Ticker))
    ensures r.0.isGenerating && r.0.progress == 0
    ensures r.1 == AfterTicks(0)
  {
    (Generator(true, 0), Ticker(0, true))
  }

  /** The delayed callback: bar full, not busy, and the fixed text handed
      to the page with the Markdown format. */
  function Complete(g: Generator, text: string): (r: (Generator, (string, string)))
    ensures !r.0.isGenerating && r.0.progress == 100
    ensures r.1 == (text, MarkdownFormat)
  {
    (Generator(false, 100), (text, MarkdownFormat))
  }
}
