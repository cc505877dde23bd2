# md-document-converter: a Dafny model of `convertMarkdown`

This project models the core of md-document-converter, the function
`convertMarkdown` in `src/converter.ts`. The function reads a Markdown file and
folds the plugins' `beforeConvert` hooks over its text. It renders the result to
HTML behind a `<style>` block, picks the output path, and then dispatches on the
output format (`html`, `pdf` or `docx`). On success it calls every
`afterConvert` hook. The `docx` branch walks the children of the parsed
`<body>` and turns each element into word-processor paragraphs.

Modules, one per concern of the source:

- `Wrappers`: `Option` and `Result`.
- `Types`: the option and plugin shapes of `src/types.ts`. A hook receives
  `Settings`, which is the options without the plugin list, because a Dafny
  datatype cannot hold a function that takes the datatype itself.
- `Errors`: the error classes of `src/errors.ts`.
- `Dom`: an abstract element/text/comment tree. It defines `textContent`, and
  `querySelectorAll('li')` as a preorder walk.
- `Docx`: paragraphs and runs with the options the converter sets.
- `Translator`: the `docx` branch. It covers inline runs of `p`, `pre` line
  splitting, lists, headings, quotes, and the fallback for every other tag.
- `Pipeline`: the `beforeConvert` fold and the `afterConvert` calls.
- `Converter`: option defaulting, format dispatch and the whole conversion.
  It exists both as a function (`ConvertMarkdown`) and as a method (`Convert`)
  that follows the source's loops.

Outside collaborators are inputs held in `Converter.Environment`: the file
system (a map from path to content), the working directory, and the default
stylesheet. The default stylesheet is read once when the module loads, and is
`""` when `styles/default.css` is missing. The Markdown renderer (showdown), the
HTML parser (JSDOM, giving the children of `<body>`) and the PDF renderer
(html-pdf, given the HTML and the output path, giving an error message or
nothing) are also inputs.

Behaviour worth knowing:

- Nested list items all sit at level 0. Each nested item follows its outer
  item, and an outer item's text includes the text of every item nested in
  it (`Dom.NestedLisFollowOuter`, `Dom.NestedLiTextIncluded`).
- The default output path is `output.<format>` in the working directory; it
  does not depend on the input file's name.
- The function returns the output path.
- Errors from hooks, reads and writes propagate unchanged: the `catch` at the
  end of `convertMarkdown` only logs and rethrows. The one wrapped error is
  the PDF renderer's, which becomes
  `ConversionError("Failed to convert to PDF: " + message)` (`Converter.Render`).

## Model

| member | source | states |
|---|---|---|
| Pipeline.ApplyBeforeConvertAppend | src/converter.ts:41-48 | folding the hooks over `a + b` equals folding over `b`, starting from the result for `a`; each plugin sees the output of the ones before it |
| Pipeline.ApplyBeforeConvertSkipsHookless | src/converter.ts:43-46 | the fold over all plugins equals the fold over only the plugins that implement `beforeConvert` |
| Pipeline.ApplyBeforeConvertNoHooks | src/converter.ts:42-48 | when no plugin implements `beforeConvert`, the content is unchanged |
| Pipeline.ApplyBeforeConvertTwo | src/converter.ts:43-46 | for two hooked plugins `[a, b]` the content becomes `b(a(content))` |
| Pipeline.RunBeforeConvert | src/converter.ts:41-48 | the `for` loop over the plugins computes the left fold of the present hooks in declaration order |
| Pipeline.WithBeforeHook | src/converter.ts:44 | keeps only plugins that have a `beforeConvert` hook, each taken from the original list |
| Pipeline.AfterConvertCallsFromSpec | src/converter.ts:303-307 | from a given index on, lists exactly the plugins with `afterConvert`, in increasing index order, each with the same argument |
| Pipeline.AfterConvertCalls | src/converter.ts:301-308 | every plugin with an `afterConvert` hook is called once, in plugin order, with the same `{ outputPath, options }`; no other plugin is called |
| Pipeline.RunAfterConvert | src/converter.ts:301-308 | the `for` loop over the plugins records exactly the calls `AfterConvertCalls` describes |
| Converter.ParseFormat | src/converter.ts:71-299 | a format is recognised iff it is `html`, `pdf` or `docx`, and the recognised format carries that name |
| Converter.ParseFormatName | src/converter.ts:71-92 | each of the three formats is recognised under its own name |
| Converter.ChooseCss | src/converter.ts:55-62 | the custom stylesheet is used iff `cssFile` is non-empty and exists; otherwise the default stylesheet is used |
| Converter.ChooseCssIgnoresUnread | src/converter.ts:56-61 | the stylesheet depends on the files only through the entry at `cssFile`: two file maps that agree there (or any two maps, when `cssFile` is absent or `""`) give the same stylesheet |
| Converter.StyledHtml | src/converter.ts:63 | the page is `<style>`, then the CSS, then `</style>`, then the HTML unchanged; the length adds up |
| Converter.DefaultOutputPathInCwd | src/converter.ts:66-68 | the default path is exactly `cwd` followed by `output.<format>`, with one `/` between them unless `cwd` already ends in `/` |
| Converter.ResolveOutputPath | src/converter.ts:65-68 | a non-empty `outputPath` is used as given; otherwise the path is `cwd` joined with `output.<outputFormat>` |
| Converter.DefaultOutputPathSplits | src/converter.ts:66-68 | for a non-empty `cwd` and a format without `/`, the text after the default path's last `/` is `output.<format>` and the text before it is `cwd` (with its trailing `/` when it has one) |
| Converter.Render | src/converter.ts:71-293 | `html` writes the page. `pdf` writes the page, or fails with `ConversionError("Failed to convert to PDF: …")` exactly when the renderer, given the page and the output path, reports an error. `docx` writes the translated body |
| Converter.ConvertMarkdown | src/converter.ts:26-316 | a missing input gives `FileReadError("Input file not found: …")`. An unknown format gives `ConversionError("Unsupported output format: …")`. A PDF renderer error gives `ConversionError("Failed to convert to PDF: …")`. Success happens iff the input exists, the format is known and the PDF renderer did not fail. On success the returned path is the resolved one, the written artifact matches the format, and the `afterConvert` calls are made in order |
| Converter.InputHtmlStyle | src/converter.ts:54-63 | the page starts with a style block holding the chosen stylesheet, followed by the rendered HTML of the hooked content |
| Converter.Convert | src/converter.ts:26-316 | the step-by-step conversion gives the same outcome as `ConvertMarkdown`; it runs the `beforeConvert` loop, the body loop and the `afterConvert` loop |
| Translator.InlineRun | src/converter.ts:124-161 | a comment child yields no run; a text or element child yields one run carrying its text content; the run is bold iff the tag is `strong`/`b`, italic iff `em`/`i`, and Courier New iff `code` |
| Translator.ParagraphRuns | src/converter.ts:122-164 | every run of a `p` is a text run, never a break |
| Translator.ParagraphRunsOnePerChild | src/converter.ts:124-162 | the i-th run is the run of the i-th text-or-element child, so the run count equals the number of those children |
| Translator.ParagraphRunsText | src/converter.ts:122-164 | the runs of a `p`, read in order, spell exactly the element's text content |
| Translator.IndexOf | src/converter.ts:204 | returns the first position of the separator |
| Translator.Split | src/converter.ts:203-204 | `split('\n')` yields at least one line, and no line contains `'\n'` |
| Translator.SplitJoin | src/converter.ts:204 | joining the split lines with `'\n'` gives back the text |
| Translator.JoinSplit | src/converter.ts:204 | splitting the join of a non-empty list of newline-free lines gives back the lines |
| Translator.SplitAtFirstNewline | src/converter.ts:204 | a newline-free line followed by `'\n'` comes out of the split as one whole line, and splitting continues after the newline |
| Translator.CodeRuns | src/converter.ts:207-218 | n lines give 2n-1 runs: even positions hold the Courier New run of line i/2, odd positions hold breaks, and there is no break after the last line |
| Translator.CodeRunsText | src/converter.ts:207-218 | the code runs, read with each break as a newline, spell the lines joined by `'\n'` |
| Translator.BuildCodeRuns | src/converter.ts:205-218 | the `forEach` loop that adds a break when `index < length - 1` builds exactly the interleaved runs |
| Translator.PreLines | src/converter.ts:202-224 | the paragraph of a `pre` text has the `Code` style and 2n-1 runs for the n lines of the text; run 2i is line i in Courier New and run 2i+1 is a break |
| Translator.NestedListFlattened | src/converter.ts:166-176 | one example: for `<li>a<ul><li>b</li></ul></li>` under `ul`, the paragraphs are the level-0 bullets `ab` and then `b` |
| Translator.ElementParagraphs | src/converter.ts:103-230 | non-list elements give exactly one paragraph. `ul`/`ol` give one level-0 bullet or `numbering-reference` item per descendant `li`, with its text. `h1`-`h3` give a heading of the matching level with the text. `p` gives a runs paragraph whose runs are exactly `ParagraphRuns` of its children. `blockquote` gives one italic run indented 720. `pre` gives the `Code`-style paragraph of its text. Any other tag gives a plain text paragraph |
| Translator.ElementTextPreserved | src/converter.ts:104-229 | the one paragraph of a non-list element shows exactly that element's text content, so no tag loses text, `h4`-`h6` included |
| Translator.Elements | src/converter.ts:98-99 | every output is an element of the body, and every element of the body is in the output |
| Translator.ElementsAppend | src/converter.ts:98-99 | selecting the elements of `a + b` gives those of `a` followed by those of `b`, so the body order is kept |
| Translator.TranslateBodyAppend | src/converter.ts:98-101 | translating `a + b` gives the translation of `a` followed by that of `b`, so the output order follows the input order |
| Translator.TranslateBodySkipsNonElements | src/converter.ts:98-99 | text and comment children of the body contribute nothing |
| Translator.TranslateBodyOnePerElement | src/converter.ts:98-101 | without lists, paragraph i is the one that element i yields, and it carries that element's text |
| Translator.BuildParagraphs | src/converter.ts:96-236 | the `forEach` loop over the body's children that pushes paragraphs builds exactly the translation |
| Dom.DescendantTextAppend | src/converter.ts:106 | the text content of concatenated nodes is the concatenation of their text contents |
| Dom.DescendantLis | src/converter.ts:167 | every node that `querySelectorAll('li')` returns is an `li` element |
| Dom.DescendantLisIsPreorderFilter | src/converter.ts:167 | the query returns exactly the `li` nodes of a preorder walk below the element, in document order, nested ones included |
| Dom.DescendantLisAppend | src/converter.ts:167 | the query over `a + b` gives the result for `a` followed by the result for `b` |
| Dom.NestedLisFollowOuter | src/converter.ts:166-188 | wherever an `li` sits among its siblings, the query returns it immediately followed by the `li`s nested in it |
| Dom.PreorderTextIncluded | src/converter.ts:169 | the text content of any element of a tree is a contiguous part of the tree's text |
| Dom.NestedLiTextIncluded | src/converter.ts:169-183 | the text of an `li` nested in another `li` is a contiguous part of the outer item's text, so the outer list paragraph repeats it |

## Left out

- Markdown to HTML (showdown) and HTML parsing (JSDOM) are foreign libraries. They are inputs (`makeHtml`, `parseBody`). The model takes the parsed `<body>` children as a tree.
- PDF rendering (html-pdf) is a foreign library. Only its error-or-success answer is an input. The page geometry and options are not modelled.
- Converter.Render: an error thrown synchronously inside `pdf.create(html).toFile(…)` (src/converter.ts:79-88) rejects the promise unwrapped, without the "Failed to convert to PDF: " prefix; the renderer is modelled only through its callback, so the model does not have that case.
- DOCX packing (`Packer.toBuffer`) is a foreign library. The model does not pack anything: the written artifact is the paragraph list. The numbering and `Code` style definitions are fixed constant objects and are not modelled.
- File I/O: `existsSync` and `readFileSync` are lookups in a map, so a path that exists can always be read; an input file or `cssFile` that exists but is a directory or unreadable makes `readFileSync` (src/converter.ts:39, 58) throw a raw Node error, and the model does not have that failure. `writeFileSync` is the `written` artifact of a success. Write failures and partial files are not modelled.
- The default stylesheet read when the module loads is an input string.
- Logging (winston) is left out.
- Asynchrony is left out: hooks are pure synchronous functions.
- Exceptions thrown by a hook, by `Packer` or by a write are not modelled. They would propagate unchanged.
- A `beforeConvert` hook that mutates its options argument, as the frontmatter plugin does with `metadata`, is not modelled. Hooks receive the settings by value and without the plugin list.
- An `afterConvert` hook's return value is ignored by the source. The model records each call (plugin index and argument) and does not evaluate the hook.
- Converter.ResolveOutputPath: `path.join` is modelled only for a normalised directory. `.`, `..` and repeated separators are not collapsed.
- Dom.Lower: `tagName.toLowerCase()` is modelled on ASCII letters only. JavaScript also lower-cases other characters (U+212A KELVIN SIGN becomes `k`), so a tag spelled with such a character takes the fallback in the model where the source may take a named branch.
- `PluginError` is declared in `src/errors.ts` but `convertMarkdown` never throws it.
- The CLI, the syntax-highlight and frontmatter plugins, the ambient `html-pdf-node` declaration, the examples and the tests are not part of this model.
- Some tests expect a result object with `success`, but `convertMarkdown` returns a plain path string. That richer result is not modelled.
