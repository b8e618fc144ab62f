# GitDocAI in Dafny

GitDocAI generates documentation and tutorials for a GitHub repository. A
FastAPI backend clones the repository, analyses the working tree, and
builds a long prompt for a Gemini model. A React front end collects the
request, simulates progress, previews the Markdown it gets back, and
exports it as HTML or PDF.

This project models the pure logic of that system: its text
transformations and its decisions. The filesystem, the git log, the
clone's outcome, the model call, the HTTP client, timers and browser
effects are all parameters or abstract values.

| file | module | what it models |
|---|---|---|
| `text.dfy` | `Text` | String kernels shared by everything else: `String.replace` with a global pattern, `split`/`join`, JavaScript line terminators, the lazy `D(.*?)D` pairing, Python `strip`, `upper`/`lower`, and UTF-16 length |
| `markdown_rules.dfy` | `MarkdownRules` | The line-anchored (`/gm`) rewrite rules common to both Markdown converters: headings, bullets, numbered items. Also proves that the fence rule is idle after inline-code pairing |
| `preview_tags.dfy` | `PreviewTags` | The preview renderer's styled tags, with facts about their characters |
| `export_service.dfy` | `ExportService`, `ExportLemmas` | `convertMarkdownToHTML`, the HTML and PDF templates, and the export file name |
| `preview.dfy` | `DocumentationPreview` | `renderMarkdownAsHTML`, the statistics card, the empty-document branch, and copy/download/share |
| `schemas.dfy` | `Schemas` | The three enumerations, the request's defaults, the response and the analysis record |
| `github_service.dfy` | `GitHubService` | Cloning as an outcome, and analysis over an abstract tree: description, primary language, technologies, directory tree, README, licence, git history |
| `ai_service.dfy` | `AiService` | How the prompt reads the analysis dictionary, the component/audience/tone tables, the structure and history formatters, the choice of prompt, and the model call |
| `routes.dfy` | `Routes` | `POST /generate-docs`, including its clean-up discipline, and `GET /health` |
| `index_page.dfy` | `IndexPage` | The component checklist toggle and the page's mock generation |
| `tutorial_generator.dfy` | `TutorialGenerator` | The tutorial request, the reply handling, the download guards and the badge |
| `documentation_generator.dfy` | `DocumentationGenerator` | The six-step progress sequence of the main application's generator |
| `frontend_generators.dfy` | `FrontendGenerators` | The capped progress tick and completion of the two `frontend/` generators |

Regular expressions are not interpreted by a general engine. Each
substitution is written as the specific string function it computes:

- **The `m` flag:** a line rule rewrites each line between JavaScript line terminators (`\n`, `\r`, U+2028, U+2029) and keeps the terminators.
- **Lazy `D(.*?)D`:** each opening delimiter is paired with the nearest closing one on the same line, scanning left to right.
- **`/(<li>.*<\/li>)/s` without `g`:** a single match, from the first `<li>` to the last `</li>` after it.

Three front-end behaviours are modelled as the code has them:

- **API client:** `src/services/api.ts` has no mock fallback. A failed request is rethrown to the caller.
- **Code-block count:** the preview divides the number of fences by two without rounding, so three fences show 1.5.
- **Preview editing:** the preview component holds no editing, saving or cancelling state. It only shows, copies, downloads and shares.

The line-anchored rules of both Markdown converters (headings, emphasis,
inline code, list items) act on each line alone. `MarkdownRules.Run`
chains such rules, and `MarkdownRules.DocumentByLines` proves that a chain
of them rewrites a document line by line. The lemmas about a heading,
bullet, numbered or bold line are therefore stated for a line at any
position of an arbitrary document. The list wrapper, the paragraph rules
and the unwraps act across lines, and are stated on their own.

## Model

| member | source | states |
|---|---|---|
| ExportLemmas.ConvertEmpty | src/services/exportService.ts:199-218 | The empty document converts to the empty string: a blank line never becomes a paragraph |
| ExportLemmas.HeadingConverts | src/services/exportService.ts:199-218 | A document that is one `#`, `##` or `###` line, whose text has no `*`, backtick, `<` or terminator, converts to exactly `<hN>text</hN>` through the whole chain: the paragraph wrapper is added and removed again. HeadingInDocument states the line rules for such a line anywhere in a document |
| ExportLemmas.HeadingsOfMarker | src/services/exportService.ts:201-203 | Each heading marker is rewritten only by its own level's rule: `## ` is never taken by the `# ` rule |
| MarkdownRules.HeadingLevelOne | src/services/exportService.ts:201 | A `# ` line becomes the level-1 tag around the rest of the line, whichever tag set is used |
| MarkdownRules.HeadingLevelTwo | src/services/exportService.ts:202 | A `## ` line becomes the level-2 tag around the rest of the line |
| MarkdownRules.HeadingLevelThree | src/services/exportService.ts:203 | A `### ` line becomes the level-3 tag around the rest of the line |
| MarkdownRules.ApplyLinesByLines | src/services/exportService.ts:201-203 | A multi-line rule rewrites every line independently and keeps every terminator in place |
| ExportLemmas.BoldBeforeItalic | src/services/exportService.ts:204-205 | The two emphasis rules turn `**x**`, with no star in x, into `<strong>x</strong>`: the single-star rule leaves the strong tags alone. BoldInDocument states it for such a line anywhere in a document |
| MarkdownRules.InlineCodeLeavesOneTickPerLine | src/services/exportService.ts:206 | After inline-code pairing, each line holds at most one backtick |
| MarkdownRules.FenceIdle | src/services/exportService.ts:210 | Text without two adjacent backticks is left unchanged by the fence rule |
| ExportLemmas.FenceNeverFires | src/services/exportService.ts:206-210 | On every input, the fence rule changes nothing: no `<pre>` is ever produced, and the conversion is the earlier rules followed by the paragraph and unwrap rules |
| ExportService.WrapListUnchanged | src/services/exportService.ts:209 | With no `<li>` followed by a `</li>`, the list rule matches nothing and the text is kept |
| ExportService.WrapListWraps | src/services/exportService.ts:209 | When some `<li>` has a `</li>` after it, exactly one `<ul>` opens just before the first `<li>` and one `</ul>` closes just after the last `</li>` |
| ExportLemmas.WrapListNoDouble | src/services/exportService.ts:209 | Inserting the list wrapper never creates adjacent backticks |
| ExportLemmas.ParagraphOfLine | src/services/exportService.ts:212 | A non-empty single line is wrapped as `<p>line</p>` |
| ExportLemmas.ParagraphBreak | src/services/exportService.ts:211-212 | A blank line between two lines yields two adjacent paragraphs |
| ExportLemmas.HeadingUnwrap | src/services/exportService.ts:213-214 | The wrapper is removed from a heading on both sides |
| MarkdownRules.DocumentByLines | src/services/exportService.ts:201-208 | A chain of line-local rules rewrites a document line by line: line i of the result is line i rewritten, and every terminator stays in place |
| MarkdownRules.RunByLines | src/services/exportService.ts:201-208 | Running a chain of line-local rules over lines joined by terminators gives the rewritten lines joined by the same terminators, and each result is still one line |
| MarkdownRules.StepByLines | src/services/exportService.ts:201-208 | One line-local rule, or one same-line pairing, rewrites joined lines independently and keeps the terminators |
| MarkdownRules.HeadingStagesRun | src/services/exportService.ts:201-203 | The three heading rules form a line-local chain whose run is the heading conversion |
| ExportLemmas.LineRulesByLines | src/services/exportService.ts:201-208 | The first eight rules keep the number of lines and the terminators, and line i of their result is line i converted alone |
| ExportLemmas.ConvertByLines | src/services/exportService.ts:199-218 | The whole conversion is the per-line conversion of every line, rejoined with the original terminators, followed by the list, paragraph and unwrap rules |
| ExportLemmas.LineInDocument | src/services/exportService.ts:201-208 | What the first eight rules make of a line alone is what they make of it at any position of a document |
| ExportLemmas.HeadingInDocument | src/services/exportService.ts:201-203 | A `#`, `##` or `###` line of plain text anywhere in a document becomes exactly `<hN>text</hN>` at the same line |
| ExportLemmas.BulletInDocument | src/services/exportService.ts:207 | A `- t` line of plain text anywhere in a document becomes exactly `<li>t</li>` |
| ExportLemmas.NumberedInDocument | src/services/exportService.ts:208 | A `d. t` line, with digits d and plain text t, anywhere in a document becomes exactly `<li>t</li>`, the number dropped |
| ExportLemmas.BoldInDocument | src/services/exportService.ts:204-205 | A `**x**` line of plain text anywhere in a document becomes exactly `<strong>x</strong>`, untouched by the single-star rule |
| ExportLemmas.UnwrapOnlyAtBlocks | src/services/exportService.ts:213-218 | The unwraps change a text only where a paragraph tag meets a heading, list or `pre` tag: without such a meeting the text is kept |
| ExportLemmas.HtmlDocumentRoundTrip | src/services/exportService.ts:70-81 | The HTML file is the dated header, the converted content, then the footer; the content can be read back from between them |
| ExportLemmas.PdfDocumentRoundTrip | src/services/exportService.ts:170-174 | The PDF page places the converted content directly after its dated header |
| ExportService.ExportToHtml | src/services/exportService.ts:5-89 | The download is named filename + `.html`, with `documentation` when no name is given, and is `text/html` |
| DocumentationPreview.RenderFramed | src/components/DocumentationPreview.tsx:70 | Every rendering is the fixed `prose` div and `mb-4` paragraph around the transformed text |
| DocumentationPreview.LineRulesByLines | src/components/DocumentationPreview.tsx:59-66 | The first eight rules keep the number of lines and the terminators, and line i of their result is line i rendered alone |
| DocumentationPreview.RenderByLines | src/components/DocumentationPreview.tsx:56-71 | A rendering is the per-line rendering of every line, rejoined with the original terminators, then the paragraph break, inside the wrapper |
| DocumentationPreview.LineInDocument | src/components/DocumentationPreview.tsx:59-66 | What the line rules make of a line alone is what they make of it at any position of a document |
| DocumentationPreview.HeadingInDocument | src/components/DocumentationPreview.tsx:59-61 | A heading line of plain text anywhere in a document becomes the level's styled heading element at the same line |
| DocumentationPreview.BulletInDocument | src/components/DocumentationPreview.tsx:65 | A `- t` line of plain text anywhere in a document becomes a bulleted `ml-4 mb-1` item holding `t` |
| DocumentationPreview.NumberedInDocument | src/components/DocumentationPreview.tsx:66 | A `d. t` line anywhere in a document becomes an `ml-4 mb-1` item holding `t`, the number dropped |
| DocumentationPreview.RenderEmpty | src/components/DocumentationPreview.tsx:56-71 | The empty document renders as the bare wrapper |
| DocumentationPreview.RenderFenceNeverFires | src/components/DocumentationPreview.tsx:64-68 | As in the exporter, the fence rule is idle after inline-code pairing, so the preview never shows `<pre>` |
| DocumentationPreview.RenderHeading | src/components/DocumentationPreview.tsx:59-61 | A document that is one heading line of plain text renders as the level's styled heading element inside the wrapper |
| DocumentationPreview.TaggedLineInert | src/components/DocumentationPreview.tsx:62-68 | A line that already starts with a tag and holds no marks passes the later rules unchanged |
| DocumentationPreview.RenderBullet | src/components/DocumentationPreview.tsx:65 | A document that is one `- t` line renders as a bulleted `ml-4 mb-1` item, with no enclosing list element |
| DocumentationPreview.RenderNumbered | src/components/DocumentationPreview.tsx:66 | A document that is one `n. t` line renders as an `ml-4 mb-1` item holding `t`, with the number dropped and no enclosing list element |
| DocumentationPreview.Statistics | src/components/DocumentationPreview.tsx:191-203 | Words are one more than the spaces, and lines one more than the newlines. Characters are UTF-16 units: between the length and twice the length, and equal to the length exactly when no character is outside the BMP. Code blocks are half the number of fences |
| DocumentationPreview.CodeBlocksWhole | src/components/DocumentationPreview.tsx:203 | The code-block figure is a whole number exactly when the fences come in pairs |
| DocumentationPreview.LineStatMatchesLines | src/components/DocumentationPreview.tsx:195 | When `\n` is the only terminator, the line figure equals the number of lines the line rules see |
| DocumentationPreview.View | src/components/DocumentationPreview.tsx:73-83 | The placeholder is shown exactly when there is no document. Otherwise the badge is the format (`Markdown` when unset), the statistics are those of the document, and the body is the raw Markdown or its framed rendering |
| DocumentationPreview.CopyToClipboard | src/components/DocumentationPreview.tsx:22-25 | The clipboard receives the Markdown document itself |
| DocumentationPreview.Download | src/components/DocumentationPreview.tsx:27-38 | The download is the document as `text/markdown`, named `README.md` |
| DocumentationPreview.Share | src/components/DocumentationPreview.tsx:40-54 | Native sharing happens exactly when the browser offers it. Either way the shared address is the page's, never the document |
| Schemas.ToneRoundTrip | backend/app/models/schemas.py:6-10 | Parsing a tone's wire name gives the tone back |
| Schemas.AudienceRoundTrip | backend/app/models/schemas.py:12-15 | Parsing an audience's wire name gives the audience back |
| Schemas.FormatRoundTrip | backend/app/models/schemas.py:17-21 | Parsing a format's wire name gives the format back |
| Schemas.EnumerationSizes | backend/app/models/schemas.py:6-21 | The enumerations are closed sets of 4, 3 and 4 distinct values |
| Schemas.NewRequest | backend/app/models/schemas.py:23-39 | An omitted field takes its default: intermediate, professional, readme, the eight default components. A sent field is kept |
| Schemas.DefaultComponentsDistinct | backend/app/models/schemas.py:30-39 | The default component list has eight distinct ids |
| Schemas.BareResponse | backend/app/models/schemas.py:41-45 | A response without its optional fields has no documentation, error or metadata |
| GitHubService.CloneRepository | backend/app/services/github_service.py:14-23 | A successful clone yields its path. A failed clone yields its error under the `Failed to clone repository: ` prefix |
| GitHubService.AnalyzeRepository | backend/app/services/github_service.py:25-44 | A directory git cannot open, or an unreadable README, fails under the `Failed to analyze repository: ` prefix, and nothing else fails it. Otherwise every field is its step's result: the path's basename, the description, the primary language, the technologies, the tree from depth 0, the README check, the licence, and the first ten commits of the log |
| GitHubService.Basename | backend/app/services/github_service.py:32 | The name is the last separator-free suffix of the path |
| GitHubService.ReadmeHead | backend/app/services/github_service.py:53 | Only the first 500 characters of a README are read |
| GitHubService.ReadmeDescription | backend/app/services/github_service.py:53-57 | The description is the stripped first non-blank line, not starting with `#`, after the title line. It is absent exactly when no such line exists |
| GitHubService.ReadmeTitleSkipped | backend/app/services/github_service.py:55 | The title line is never offered, so a one-line README describes nothing |
| GitHubService.FromReadmesAbsent | backend/app/services/github_service.py:49-51 | With none of the candidates present, the README search finds no description and does not fail |
| GitHubService.PackageDescription | backend/app/services/github_service.py:60-67 | There is a description exactly when `package.json` reads strictly, parses to an object, and has a non-null `description`. A string is returned as it is. Any other value is returned as its printed text when true, and as `""` when false, so the prompt's `or` passes over it as it passes over `""` |
| GitHubService.ExtractDescription | backend/app/services/github_service.py:46-69 | The README search's failure, or its description, decides. Only when no README describes does `package.json` decide |
| GitHubService.Extension | backend/app/services/github_service.py:98 | The extension is empty or a dot-started suffix of the name |
| GitHubService.ExtensionSplits | backend/app/services/github_service.py:98 | A name has an extension exactly when its last dot has a non-dot character somewhere before it; the extension then holds no further dot |
| GitHubService.FirstSeen | backend/app/services/github_service.py:101 | The language keys are the counted languages, each once, starting with the first file's language |
| GitHubService.FirstSeenInOrder | backend/app/services/github_service.py:101 | The keys are in insertion order: one key comes before another exactly when its first file was counted earlier |
| GitHubService.Best | backend/app/services/github_service.py:104 | The chosen key has a maximal count, and every key before it has a strictly smaller count |
| GitHubService.DetectPrimaryLanguage | backend/app/services/github_service.py:71-105 | There is no language exactly when no file has a known extension. Otherwise the result is a counted language with a maximal count, the first seen on ties |
| GitHubService.SkippedDirUncounted | backend/app/services/github_service.py:95 | A hidden or ignored directory adds nothing to the language count |
| GitHubService.SingleReadmeNoLanguage | backend/app/services/github_service.py:103-105 | A tree holding only a README gets no primary language |
| GitHubService.SingleReadmeDescribes | backend/app/services/github_service.py:46-69 | Reading the description of a tree holding one readable README never fails |
| GitHubService.TechnologyMarkers | backend/app/services/github_service.py:107-170 | `Node.js` is present iff `package.json` exists, `Python` iff `requirements.txt` exists, and `Django` iff requirements mention it in any case |
| GitHubService.PythonFrameworksNamed | backend/app/services/github_service.py:140-151 | Requirement checks are case-insensitive substring tests |
| GitHubService.MarkersNamed | backend/app/services/github_service.py:155-168 | The marker-file table never contributes `Node.js`, `Python` or `Django` |
| GitHubService.RevealExactly | backend/app/services/github_service.py:166-168 | A table technology is listed exactly when some row naming it has its key present |
| GitHubService.NodeTechnologiesNamed | backend/app/services/github_service.py:111-132 | The `package.json` step lists `Node.js` exactly when the file exists, whatever its contents, and never `Python` or `Django` |
| GitHubService.PythonTechnologiesNamed | backend/app/services/github_service.py:135-152 | The `requirements.txt` step lists `Python` exactly when the file exists, and `Django` exactly when the file also decodes as UTF-8 and its lower-cased text contains `django` |
| GitHubService.NodeFrameworksNamed | backend/app/services/github_service.py:119-130 | The dependency checks never list `Node.js`, `Python` or `Django` |
| GitHubService.BuildTreeShape | backend/app/services/github_service.py:172-195 | The tree is at most three levels deep. Directory keys end in `/`, and files map to `file` |
| GitHubService.TreeEntriesShape | backend/app/services/github_service.py:180-189 | Every entry of a listing is keyed by the directory or file rule, and nested listings respect the remaining depth |
| GitHubService.ChildEntriesShape | backend/app/services/github_service.py:181-189 | A hidden item or an ignored directory adds nothing; any other item adds one visible entry whose nested listing fits the remaining depth |
| GitHubService.TreeEntriesFollowChildren | backend/app/services/github_service.py:180-189 | A listing has one entry per shown child, in listing order: a directory gets its name plus `/` and its own listing one level deeper, a file its name and `file` |
| GitHubService.ListedExactlyShown | backend/app/services/github_service.py:181-189 | An entry is listed exactly when it is the entry of a child that is neither hidden nor an ignored directory |
| GitHubService.BuildTreeLists | backend/app/services/github_service.py:174-193 | Below depth 3 a readable directory lists its shown children in order. At the limit, for a file, or for a directory that cannot be listed, the tree is empty |
| GitHubService.CheckReadmeExists | backend/app/services/github_service.py:197-200 | True exactly when one of the five README names exists |
| GitHubService.ReadmeOnlyCapitalised | backend/app/services/github_service.py:197-200 | A repository with only `Readme.md` has a README but no README description, because the search never reads that name |
| GitHubService.ClassifyLicense | backend/app/services/github_service.py:211-221 | Each outcome holds exactly when its word is in the upper-cased text and no earlier word of the order MIT, APACHE, GPL, BSD is; `Custom` exactly when none is |
| GitHubService.LicenseFrom | backend/app/services/github_service.py:204-225 | The first candidate that is present and readable decides, classified by its text. Missing or unreadable candidates are passed over, and when none is readable there is no licence |
| GitHubService.Record | backend/app/services/github_service.py:233-236 | A recorded hash is the first eight characters of the full hash (all of a shorter one), the message is the stripped message, and author and date are kept |
| GitHubService.ReadStrict | backend/app/services/github_service.py:63 | A strict UTF-8 read succeeds exactly for a readable file whose bytes decode, and then yields the same text as a lenient read |
| GitHubService.GitHistory | backend/app/services/github_service.py:227-240 | At most `limit` commits, exactly the first `limit` (or all) of the log, each recorded in log order; a failing log yields none |
| AiService.IsTutorial | backend/app/services/ai_service.py:17-18 | The tutorial prompt is chosen iff some component is `tutorial`, `code-examples` or `step-by-step` |
| AiService.GenerateDocumentation | backend/app/services/ai_service.py:13-29 | As written: a `None` language makes prompt building raise the `NoneType` error before the `try`, unprefixed, and the model is never called. Otherwise the model receives the selected prompt, its text is returned, and its failure is reported as `Failed to generate documentation: ` followed by the error |
| AiService.GenerateDocumentationWithFallback | backend/app/services/ai_service.py:13-29 | With the language fallback the prompt always builds: the model receives the selected prompt, and the model's failure is the only failure |
| AiService.BuildPrompt | backend/app/services/ai_service.py:20-23 | The prompt is the tutorial or documentation prompt, as chosen, with the corrected language and the computed component text |
| AiService.DocumentationPromptCarriesInstructions | backend/app/services/ai_service.py:280-327 | The documentation prompt embeds the audience, tone and component instructions it computed |
| AiService.TutorialPromptCarriesRequest | backend/app/services/ai_service.py:78-263 | The tutorial prompt names the request's audience and tone and the repository's name |
| AiService.Get | backend/app/services/ai_service.py:34-38 | A default applies only to an absent key. A key holding `None` yields `None` |
| AiService.AsDict | backend/app/services/github_service.py:31-40 | Every analysis key is present, so a missing language stays `None` and does not become `Unknown` |
| AiService.OptionSlot | backend/app/services/github_service.py:34 | An optional analysis field becomes a present key, holding `None` exactly when the field is absent |
| AiService.Description | backend/app/services/ai_service.py:35 | The first non-empty of the analysis description, the request description and `No description provided` |
| AiService.TechnologyLine | backend/app/services/ai_service.py:50 | The technologies joined with `, `, or the placeholder when there are none |
| AiService.FenceTagAsWritten | backend/app/services/ai_service.py:121 | Lower-casing the language raises exactly when the key holds `None` |
| AiService.BuildPromptAsWritten | backend/app/services/ai_service.py:273-422 | As written, building either prompt fails exactly when the language key holds `None`, with the `NoneType` error |
| AiService.LanguageNoneFails | backend/app/services/github_service.py:103-105 | As written, an analysis with no detected language makes prompt building raise the `NoneType` error, whichever prompt is chosen |
| Routes.ReadmeOnlyRepositoryFails | backend/app/services/ai_service.py:273-422 | A repository holding only `README.md` is analysed without error and gets no language, and then the as-written prompt fails |
| Routes.ReadmeOnlyAnalyses | backend/app/services/github_service.py:25-44 | A repository with one readable README and nothing else is analysed successfully and has no language |
| AiService.Language | backend/app/services/ai_service.py:36 | The shown language is the detected one when non-empty, otherwise `Unknown`; never empty |
| AiService.LanguageAlwaysShown | backend/app/services/ai_service.py:36 | With the fallback, every analysis gets a non-empty language and fence tag. `None` gives `Unknown`/`unknown` |
| AiService.LineOf | backend/app/services/ai_service.py:612-615 | An id contributes one line exactly when it is in the table |
| AiService.ComponentsInstructions | backend/app/services/ai_service.py:593-617 | The loop computes the component text: the known ids' lines in input order, or the `Complete Documentation` line when none is known |
| AiService.InstructionLinesCount | backend/app/services/ai_service.py:612-615 | There is one line per known id, duplicates included |
| AiService.InstructionLinesAppend | backend/app/services/ai_service.py:612-615 | The lines of a concatenation are the concatenated lines, so input order is kept |
| AiService.AudienceLookup | backend/app/services/ai_service.py:619-626 | A known audience key gives its table entry. Any other key gives `Intermediate developers`, and only such keys do |
| AiService.ToneLookup | backend/app/services/ai_service.py:628-636 | A known tone key gives its table entry. Any other key gives `Professional and clear`, and only such keys do |
| AiService.FormatIsOutline | backend/app/services/ai_service.py:638-652 | The recursive formatter prints the flat outline, one line per key at every depth; the placeholder appears only for an empty top level |
| AiService.FormattedIsOutline | backend/app/services/ai_service.py:640-650 | The entries of a non-empty mapping format to their outline lines joined by newlines |
| AiService.OutlineIndented | backend/app/services/ai_service.py:640-648 | Every outline line starts with its level's indentation, two more spaces per nesting level |
| AiService.FormatGitHistory | backend/app/services/ai_service.py:654-663 | An empty or absent history gives the placeholder |
| AiService.HistoryShowsFirstFive | backend/app/services/ai_service.py:654-663 | Only the first five commits are shown; later ones change nothing |
| AiService.HistoryPeel | backend/app/services/ai_service.py:659-663 | With two or more commits, the text is the first commit's line, a newline, then the text for the following commits up to the fifth: every shown line, in log order |
| AiService.HistoryOfOne | backend/app/services/ai_service.py:659-663 | A single commit is shown as its line alone |
| AiService.HistoryStartsWithNewest | backend/app/services/ai_service.py:654-663 | The text opens with the first (newest) commit's line |
| AiService.CommitDefaults | backend/app/services/ai_service.py:659-662 | Missing hash, message and author show as `N/A`, `No message` and `Unknown` |
| Routes.ListOf | backend/app/services/github_service.py:170 | `list(set(...))` lists each technology once, in an order the set does not fix |
| Routes.Failed | backend/app/api/routes.py:39-42 | A failure response carries the message and no documentation or metadata |
| Routes.GenerateDocs | backend/app/api/routes.py:9-42 | Cleanup runs exactly once, as the last step, on every path. Clone and analysis failures give their messages. An analysis without a language fails with the `NoneType` error. Success carries the text and the analysis/request metadata, and happens whenever there is a language and every service succeeds |
| Routes.Respond | backend/app/api/routes.py:20-37 | After a successful analysis, a missing language fails with the `NoneType` error. Success implies a language and carries the metadata; failure carries only an error |
| Routes.Health | backend/app/api/routes.py:44-47 | The health document is always `healthy`, `GitDocAI API` |
| IndexPage.Remove | src/pages/Index.tsx:56 | Filtering leaves no copy of the id and adds nothing |
| IndexPage.RemoveCounts | src/pages/Index.tsx:56 | Filtering removes exactly the copies of the id; every other element keeps its multiplicity |
| IndexPage.RemoveAppend | src/pages/Index.tsx:56 | Filtering distributes over concatenation, so the kept elements stay in order |
| IndexPage.RemoveAbsent | src/pages/Index.tsx:56 | Filtering out an absent id changes nothing |
| IndexPage.RemoveNoDuplicates | src/pages/Index.tsx:56 | Filtering keeps a duplicate-free list duplicate-free |
| IndexPage.ToggleFlips | src/pages/Index.tsx:53-59 | Toggling flips the id's membership and no other element's |
| IndexPage.ToggleEffect | src/pages/Index.tsx:53-59 | An absent id is appended after the unchanged list. A present id is removed, and the others keep their multiplicities |
| IndexPage.ToggleNoDuplicates | src/pages/Index.tsx:53-59 | Toggling preserves the absence of duplicates |
| IndexPage.ToggleTwiceAbsent | src/pages/Index.tsx:53-59 | Toggling an absent id twice restores the list |
| IndexPage.ToggleTwicePresent | src/pages/Index.tsx:53-59 | Toggling a present id twice moves it, once, to the end |
| IndexPage.InitialComponentsAreDefaults | src/pages/Index.tsx:25-34 | The page starts with the backend's eight default components, with no duplicates |
| IndexPage.Overview | src/pages/Index.tsx:73 | The overview is the description, or the stock sentence when it is empty |
| IndexPage.Generate | src/pages/Index.tsx:61-128 | An empty URL changes nothing. Any other URL fills the template and opens the preview tab, leaving the inputs alone |
| IndexPage.SelectTab | src/pages/Index.tsx:149-162 | Clicking one of the three tabs shows it and leaves every other part of the page as it was |
| IndexPage.GenerateFromGenerateTab | src/pages/Index.tsx:61-128 | From the generate tab, where the generator is shown, an empty URL leaves the page on that tab unchanged; any other URL fills the template and moves to the preview tab |
| IndexPage.MockDocsContents | src/pages/Index.tsx:70-124 | The generated text contains `git clone` with the URL, and the description or the stock sentence |
| IndexPage.BlankUrlGenerates | src/pages/Index.tsx:62-65 | A URL of only whitespace passes the guard |
| TutorialGenerator.TutorialRequest | src/components/TutorialGenerator.tsx:61-69 | The request fixes the three tutorial components and `markdown`, and sends the chosen complexity as the audience. The description falls back to `Generate a <label> tutorial for this project` |
| TutorialGenerator.TutorialRequestIsTutorial | src/components/TutorialGenerator.tsx:68 | The tutorial request always takes the backend's tutorial branch |
| TutorialGenerator.TitledRoundTrip | src/components/TutorialGenerator.tsx:74 | The stored tutorial starts with `# ` and the label, and the returned text follows the blank line |
| TutorialGenerator.Reply | src/components/TutorialGenerator.tsx:71-83 | A successful response with text becomes the titled tutorial with its metadata. Otherwise the message is the exception's, the response's error, or `Failed to generate tutorial` |
| TutorialGenerator.Generate | src/components/TutorialGenerator.tsx:51-87 | An empty URL aborts with no change. Otherwise generating ends false, and the stored tutorial changes only on success |
| TutorialGenerator.FailureKeepsTutorial | src/components/TutorialGenerator.tsx:78-86 | A failed call keeps the previous tutorial and only clears the busy flag |
| TutorialGenerator.DownloadMarkdown | src/components/TutorialGenerator.tsx:97-112 | Refused exactly when there is no tutorial. Otherwise `tutorial-<type>.md` as `text/markdown` |
| TutorialGenerator.DownloadPdf | src/components/TutorialGenerator.tsx:89-95 | Refused exactly when there is no tutorial. Otherwise the tutorial goes to the PDF export as `tutorial-<type>` |
| TutorialGenerator.DownloadNamesAgree | src/components/TutorialGenerator.tsx:89-112 | The Markdown file name is the PDF base name plus `.md` |
| TutorialGenerator.BadgeFirstHyphenOnly | src/components/TutorialGenerator.tsx:201 | Only the first hyphen of the type becomes a space |
| TutorialGenerator.BadgeWithoutHyphen | src/components/TutorialGenerator.tsx:201 | A type without a hyphen is shown unchanged |
| DocumentationGenerator.Generate | src/components/DocumentationGenerator.tsx:44-63 | An empty URL only shows the error. Otherwise the six labels show once each in order, and progress starts at 0, rises strictly through `(i+1)/6*100` and ends at 100. The busy flag clears just before the single `onGenerate` call |
| DocumentationGenerator.RunSteps | src/components/DocumentationGenerator.tsx:50-62 | The same sequence for any non-empty list of step labels |
| DocumentationGenerator.ShowSteps | src/components/DocumentationGenerator.tsx:50-58 | The loop shows each label followed by its progress value, after the reset to 0 |
| DocumentationGenerator.ProgressValues | src/components/DocumentationGenerator.tsx:56 | The step values rise strictly, are positive, and the last is exactly 100 |
| DocumentationGenerator.ProgressRises | src/components/DocumentationGenerator.tsx:51-56 | A record of 0 followed by the step values is strictly increasing and ends at 100 |
| DocumentationGenerator.EnabledClickRuns | src/components/DocumentationGenerator.tsx:153 | An enabled trigger never meets the URL check, so every click it accepts runs the whole sequence |
| FrontendGenerators.Tick | frontend/src/components/DocumentationGenerator.tsx:31-37 | At 90 or more the bar stays at 90 and the timer stops; below 90 it adds 10 (the tutorial generator's lines 27-35 are the same) |
| FrontendGenerators.AfterTicksClosedForm | frontend/src/components/DocumentationGenerator.tsx:26-37 | After k periods the bar reads `min(10k, 90)`, and the timer runs exactly while k < 10 |
| FrontendGenerators.TicksStayOnGrid | frontend/src/components/DocumentationGenerator.tsx:26-37 | From the reset the bar only takes the values 0, 10, …, 90 |
| FrontendGenerators.Start | frontend/src/components/DocumentationGenerator.tsx:26-30 | A click sets the busy flag, resets the bar and starts the timer |
| FrontendGenerators.Complete | frontend/src/components/DocumentationGenerator.tsx:41-45 | Completion sets the bar to 100, clears the busy flag, and hands the fixed text over with the `markdown` format (the tutorial generator's lines 38-42 are the same) |
| FrontendGenerators.NoUrlGuard | frontend/src/components/DocumentationGenerator.tsx:75 | The button is disabled only while generating, and the URL plays no part. The main application's generator, by contrast, is disabled on an empty URL |

## Left out

- **I/O:** the GitPython clone, temporary directories, `_safe_rmtree` and `cleanup` are left out. The clone is a `Result` parameter, the working tree an abstract `Node`, and the git log an optional list; `Routes.GenerateDocs` records clean-up as a trace step.
- **Gemini:** the model call and its client set-up are a function parameter from prompt to `Result`.
- **The HTTP client:** `src/services/api.ts` (fetch, JSON and the rethrow) is an `ApiOutcome` value: a response, or a thrown message.
- **Pydantic validation:** `HttpUrl` and the parsing of the request body are library behaviour. The URL is a string, and the enumerations are closed datatypes with their wire names.
- **The prompt's literal prose:** each prompt is modelled as the list of its interpolated lines, in template order: every `{...}` of the tutorial template (lines 46-56, 78, 81, 121, 151, 180, 185, 247, 250-251, 263) and of the documentation template (lines 291-305, 323-327, 332-343, 390-391, 422, 428, 434, 576). Markdown decoration on those lines is reduced to a plain label, and the fixed prose between them is left out because it carries no decision.
- **Enumeration formatting:** `{audience_level}`, `{request.tone}` and `{request.target_audience}` (ai_service.py lines 250, 251, 263, 576) are modelled as the member's value, `beginner` say. That is what `format` gives a `str`-based enumeration up to Python 3.10. From Python 3.11 it gives the qualified name, `AudienceEnum.beginner`, and no Python version is fixed by the repository.
- **Browser effects:** Blob downloads, the print iframe, the clipboard, `navigator.share` and toasts are left out. What each action would write, save or share is returned as a value.
- **Dates:** `toLocaleDateString` is a string parameter of the templates.
- **Timers:** the waits of the step sequencer, and the interleaving of the interval and the timeout in the `frontend/` generators, are left out. A tick is one call of the interval callback, completion is the delayed callback, and races between them are concurrency.
- DocumentationGenerator.ProgressValues: the step values `(i+1)/6*100` are exact rationals. JavaScript computes them in double precision, which gives 16.666666666666664, 33.33333333333333, 50, 66.66666666666666, 83.33333333333334 and 100. Only 50 and 100 coincide with the rationals, but the doubles also rise strictly and end at exactly 100, so the stated properties hold for both.
- GitHubService.ClassifyLicense: `Upper` maps ASCII letters only. Python's `str.upper` also maps some non-ASCII letters to ASCII ones, for example `ı` to `I` and `ſ` to `S`, so a licence spelling `mıt` or `bſd` is `Custom` in the model but MIT or BSD in the code.
- GitHubService.PythonTechnologiesNamed: `Lower` maps ASCII letters only. Python's `str.lower` maps the Kelvin sign (U+212A) to `k` and `İ` to `i` plus a combining dot, so `FLASK` written with a Kelvin sign, or `FASTAPİ`, is detected by the code and not by the model. `django` contains neither letter, so the `Django` statement is exact.
- GitHubService.DetectPrimaryLanguage: `.kt` written with the Kelvin sign (U+212A) in place of `k` is Kotlin after Python's `str.lower`, but has no language in the model.
- **Abstract filesystem:** listing order is the order of a directory's children, and JSON parsing is reduced to the fields the analysis reads. A file's text is what a text-mode read returns: the decoded text with `\r\n` and `\r` turned into `\n`. README and licence files are read with `errors='ignore'` (lines 52, 210), so their undecodable bytes are dropped before the text the model sees. `package.json` and `requirements.txt` are read strictly (lines 63, 116, 140). A file whose `utf8` flag is false fails that read, and the surrounding `try` skips it.
- **Entry point and configuration:** `backend/main.py` (app wiring and CORS) and `backend/app/core/config.py` (settings, including a credential) are not part of this model.
- **Presentational components:** the hero, features, process, setup, URL-input and generate-step components, and the not-found page, hold layout and callback wiring only.
- **`src/types/api.ts`:** it only declares the types that `Schemas` mirrors.
- Routes.ListOf: the order of `list(set(...))` is not fixed by the model; any order of the set's members is allowed.
- GitHubService.PackageDescription: a `description` that is not a string is kept as the text the prompt prints for it, or as `""` when it is false. The response's metadata therefore carries that text, where the code returns the JSON value itself.
- GitHubService.AnalyzeRepository: errors are messages, not exception types. The message for a directory git cannot open is fixed in the model, where GitPython's own text would appear.
- DocumentationPreview.Statistics: the character figure is bounded by the UTF-16 facts and is not stated as an exact formula.
- AiService.FormatGitHistory: its contract states only the placeholder case. The shown lines are stated by HistoryPeel and HistoryOfOne, which together give each of the first five commits' line in log order, and by HistoryShowsFirstFive.

## Findings

| source | as written | input that shows it | evidently intended | confidence | as-written member | corrected member |
|---|---|---|---|---|---|---|
| backend/app/services/ai_service.py:121 | The `Unknown` default of the language lookup applies only to a missing key, so the `None` that analysis stores reaches `language.lower()` in both prompts (lines 121, 151, 180, 185, 422, 428, 434) then raises `'NoneType' object has no attribute 'lower'` | A repository holding only `README.md` (Routes.ReadmeOnlyRepositoryFails). `_detect_primary_language` returns `None` (github_service.py:103-105), and generation fails with that error | Fall back to `Unknown` whenever no language was detected, not only when the key is absent | high, not executed | AiService.BuildPromptAsWritten | AiService.LanguageAlwaysShown |
