/**
 The main page's own logic: the checklist of documentation components
 (a list toggled one id at a time) and the simulated generation, which
 fills in a fixed Markdown template and switches to the preview tab.
 */
module IndexPage {
  import opened Text
  import Schemas

  // ---------------------------------------------------------------------
  // Component checklist (src/pages/Index.tsx lines 25-34, 53-59)
  // ---------------------------------------------------------------------

  /** The list the page starts with. */
  const InitialComponents: seq<string> :=
    ["overview", "readme", "installation", "usage", "structure", "technologies", "contributing", "license"]

  predicate NoDuplicates(xs: seq<string>) {
    forall i, j :: 0 <= i < j < |xs| ==> xs[i] != xs[j]
  }

  /** `prev.filter(x => x !== id)`. */
  function Remove(xs: seq<string>, id: string): (r: seq<string>)
    ensures id !in r
    ensures forall x :: x in r ==> x in xs
  {
    if |xs| == 0 then []
    else (if xs[0] == id then [] else [xs[0]]) + Remove(xs[1..], id)
  }

  /** `handleComponentToggle`: a selected id is deselected (every copy),
      any other id is appended. */
  function Toggle(prev: seq<string>, id: string): seq<string> {
    if id in prev then Remove(prev, id) else prev + [id]
  }

  /** Filtering distributes over concatenation, so the kept elements stay
      in their original order. */
  lemma {:induction false} RemoveAppend(a: seq<string>, b: seq<string>, id: string)
    ensures Remove(a + b, id) == Remove(a, id) + Remove(b, id)
  {
    if |a| > 0 {
      assert (a + b)[1..] == a[1..] + b;
      RemoveAppend(a[1..], b, id);
    } else {
      assert a + b == b;
    }
  }

  /** Removing deletes exactly the copies of `id`: every other element
      keeps its multiplicity. */
  lemma {:induction false} RemoveCounts(xs: seq<string>, id: string)
    ensures multiset(Remove(xs, id))[id] == 0
    ensures forall x :: x != id ==> multiset(Remove(xs, id))[x] == multiset(xs)[x]
  {
    if |xs| > 0 {
      RemoveCounts(xs[1..], id);
      assert xs == [xs[0]] + xs[1..];
    }
  }

  /** Removing an absent id changes nothing. */
  lemma {:induction false} RemoveAbsent(xs: seq<string>, id: string)
    requires id !in xs
    ensures Remove(xs, id) == xs
  {
    if |xs| > 0 {
      RemoveAbsent(xs[1..], id);
      assert xs == [xs[0]] + xs[1..];
    }
  }

  /** Removing keeps a list free of duplicates. */
  lemma {:induction false} RemoveNoDuplicates(xs: seq<string>, id: string)
    requires NoDuplicates(xs)
    ensures NoDuplicates(Remove(xs, id))
  {
    if |xs| > 0 {
      assert NoDuplicates(xs[1..]) by {
        forall i, j | 0 <= i < j < |xs[1..]|
          ensures xs[1..][i] != xs[1..][j]
        {
          assert xs[1..][i] == xs[i + 1] && xs[1..][j] == xs[j + 1];
        }
      }
      RemoveNoDuplicates(xs[1..], id);
      var rest := Remove(xs[1..], id);
      assert xs[0] !in xs[1..] by {
        forall k | 0 <= k < |xs[1..]|
          ensures xs[1..][k] != xs[0]
        {
          assert xs[1..][k] == xs[k + 1];
        }
      }
      assert xs[0] !in rest;
    }
  }

  /** Toggling flips the membership of `id` and of nothing else. */
  lemma ToggleFlips(prev: seq<string>, id: string, x: string)
    ensures x == id ==> (x in Toggle(prev, id) <==> x !in prev)
    ensures x != id ==> (x in Toggle(prev, id) <==> x in prev)
  {
    if id in prev {
      RemoveCounts(prev, id);
      assert x in Remove(prev, id) <==> multiset(Remove(prev, id))[x] > 0;
    }
  }

  /** Toggling an absent id appends it and keeps the rest as it was;
      toggling a present id deletes every copy and keeps the others in
      their order with their multiplicities. */
  lemma ToggleEffect(prev: seq<string>, id: string)
    ensures id !in prev ==> |Toggle(prev, id)| == |prev| + 1 && Toggle(prev, id)[..|prev|] == prev
                            && Toggle(prev, id)[|prev|] == id
    ensures id in prev ==> id !in Toggle(prev, id)
                           && forall x :: x != id ==> multiset(Toggle(prev, id))[x] == multiset(prev)[x]
  {
    if id in prev {
      RemoveCounts(prev, id);
    }
  }

  /** Toggling keeps the list free of duplicates. */
  lemma ToggleNoDuplicates(prev: seq<string>, id: string)
    requires NoDuplicates(prev)
    ensures NoDuplicates(Toggle(prev, id))
  {
    if id in prev {
      RemoveNoDuplicates(prev, id);
    }
  }

  /** Toggling an absent id twice restores the list. */
  lemma ToggleTwiceAbsent(prev: seq<string>, id: string)
    requires id !in prev
    ensures Toggle(Toggle(prev, id), id) == prev
  {
    RemoveAppend(prev, [id], id);
    RemoveAbsent(prev, id);
    assert Remove([id], id) == [] by {
      assert [id][1..] == [];
    }
  }

  /** Toggling a present id twice moves it, once, to the end. */
  lemma ToggleTwicePresent(prev: seq<string>, id: string)
    requires id in prev
    ensures Toggle(Toggle(prev, id), id) == Remove(prev, id) + [id]
  {
  }

  /** The page starts with the request's default component list, which
      holds no duplicates. */
  lemma InitialComponentsAreDefaults()
    ensures InitialComponents == Schemas.DefaultComponents
    ensures NoDuplicates(InitialComponents)
  {
    Schemas.DefaultComponentsDistinct();
  }

  // ---------------------------------------------------------------------
  // Simulated generation (lines 61-128)
  // ---------------------------------------------------------------------

  /** The three tabs of the page (lines 151-162): `setup`, `generate`,
      where the generator that calls `Generate` is shown (lines 293-300),
      and `preview`. */
  datatype Tab = SetupTab | GenerateTab | PreviewTab

  datatype PageState = PageState(
    repoUrl: string,
    projectDescription: string,
    selectedComponents: seq<string>,
    generatedDocs: string,
    activeTab: Tab)

  const AutoDescription := "Auto-detected project description based on repository analysis."

  /** The fixed parts of the generated template around its two
      interpolations. */
  const MockHead := "# \U{1F4DA} Generated Documentation\n\n## \U{1F3AF} Project Overview\n"
  const MockMiddle := "\n\n## \U{1F680} Quick Start\n\n### Prerequisites\n- Node.js (v18 or higher)\n- npm or yarn\n\n### Installation\n```bash\n"
  /** The template after the clone command, line by line. */
  const MockTailLines: seq<string> := [
    "",
    "cd repo-name",
    "npm install",
    "```",
    "",
    "### Usage",
    "```javascript",
    "// Example usage",
    "import { App } from './src/App';",
    "",
    "const app = new App();",
    "app.run();",
    "```",
    "",
    "## \U{1F4C1} Project Structure",
    "```",
    "src/",
    "├── components/",
    "│   ├── DocumentationGenerator.tsx",
    "│   └── DocumentationPreview.tsx",
    "├── pages/",
    "│   └── Index.tsx",
    "└── lib/",
    "    └── utils.ts",
    "```",
    "",
    "## \U{1F6E0}\U{FE0F} Technologies Used",
    "- **Frontend**: React, TypeScript, Tailwind CSS",
    "- **Build Tool**: Vite",
    "- **UI Components**: Shadcn/ui",
    "- **Icons**: Lucide React",
    "",
    "## \U{1F91D} Contributing",
    "1. Fork the repository",
    "2. Create a feature branch",
    "3. Commit your changes",
    "4. Push to the branch",
    "5. Create a Pull Request",
    "",
    "## \U{1F4C4} License",
    "MIT License - see LICENSE file for details.",
    ""]
  const MockTail := Join(MockTailLines, "\n")

  /** The overview paragraph: the description, or the stock sentence when
      it is empty. */
  function Overview(description: string): (r: string)
    ensures |description| > 0 ==> r == description
    ensures |description| == 0 ==> r == AutoDescription
  {
    if |description| > 0 then description else AutoDescription
  }

  function MockDocs(repoUrl: string, description: string): string {
    MockHead + Overview(description) + MockMiddle + ("git clone " + repoUrl) + MockTail
  }

  /** `handleGenerateDocumentation`: nothing happens without a URL; any
      non-empty URL, blank ones included, fills the template and opens
      the preview. */
  function Generate(s: PageState): (r: PageState)
    ensures s.repoUrl == "" ==> r == s
    ensures s.repoUrl != "" ==> r.activeTab == PreviewTab && r.generatedDocs == MockDocs(s.repoUrl, s.projectDescription)
    ensures r.repoUrl == s.repoUrl && r.projectDescription == s.projectDescription
    ensures r.selectedComponents == s.selectedComponents
  {
    if s.repoUrl == "" then s
    else s.(generatedDocs := MockDocs(s.repoUrl, s.projectDescription), activeTab := PreviewTab)
  }

  /** `onValueChange={setActiveTab}`: clicking a tab shows it and changes
      nothing else. */
  function SelectTab(s: PageState, t: Tab): (r: PageState)
    ensures r.activeTab == t
    ensures r.(activeTab := s.activeTab) == s
  {
    s.(activeTab := t)
  }

  /** Generation is started from the generate tab: without a URL the page
      stays there unchanged, and with one it moves to the preview. */
  lemma GenerateFromGenerateTab(s: PageState)
    requires s.activeTab == GenerateTab
    ensures s.repoUrl == "" ==> Generate(s).activeTab == GenerateTab && Generate(s) == s
    ensures s.repoUrl != "" ==> Generate(s).activeTab == PreviewTab
                                && Generate(s) == s.(generatedDocs := MockDocs(s.repoUrl, s.projectDescription),
                                                     activeTab := PreviewTab)
  {
  }

  /** Both interpolations of a five-part template occur in its text. */
  lemma TemplateHolds(head: string, o: string, middle: string, g: string, tail: string)
    ensures Within(head + o + middle + g + tail, g)
    ensures Within(head + o + middle + g + tail, o)
  {
    WithinMiddle(head + o + middle, g, tail);
    WithinMiddle(head, o, middle + g + tail);
    assert head + o + (middle + g + tail) == head + o + middle + g + tail;
  }

  /** The generated text carries the clone command for the entered URL and
      the overview paragraph. */
  lemma MockDocsContents(s: PageState)
    requires s.repoUrl != ""
    ensures Within(Generate(s).generatedDocs, "git clone " + s.repoUrl)
    ensures Within(Generate(s).generatedDocs, Overview(s.projectDescription))
    ensures |s.projectDescription| > 0 ==> Within(Generate(s).generatedDocs, s.projectDescription)
    ensures |s.projectDescription| == 0 ==> Within(Generate(s).generatedDocs, AutoDescription)
  {
    TemplateHolds(MockHead, Overview(s.projectDescription), MockMiddle, "git clone " + s.repoUrl, MockTail);
  }

  /** A blank URL is not rejected: only the empty string is. */
  lemma BlankUrlGenerates(s: PageState)
    requires s.repoUrl == " "
    ensures Generate(s).activeTab == PreviewTab
  {
  }
}
