# Markdown single-page generator: the parsing and rendering core

The generator turns one Markdown document into a single self-contained HTML
page. Each `## ` heading becomes a navigation button and a collapsible
content panel. One `## ` section can be turned into a dropdown, with one panel
per `### ` heading under it. Before rendering, the Markdown goes through a
series of text passes:

- `Include: [name](file.md)` directives are replaced by the file's text, with
  its headings moved down to the level of the include site;
- `{{lastUpdate:path}}` tokens become the file's modification date;
- `<!` achievement markers become spans;
- tables under a skill-matrix heading become styled HTML tables.

After Markdown rendering, the HTML is cut at its `<h2>` headings into sections.
The sections are wrapped in panel markup, and the page template is filled in.

This Dafny project models those passes as they are written:

| module | file | models |
|---|---|---|
| `Text` | text.dfy | String helpers the source takes from Rust's standard library: trimming, `find`, `split`, `join`, `lines`, `replace`, ASCII lowercasing and character classes |
| `Search` | search.dfy | Facts about the first match of a pattern and the first `left … right` span |
| `Slugs` | slugs.dfy | `slugify` (src/parser/sections.rs) |
| `Sections` | sections.dfy | `extract_sections` (src/parser/sections.rs) |
| `Document` | document.dfy | `parse_document_structure` and `generate_unique_id` (src/parser/document.rs) |
| `Includes` | includes.dfy | `process_includes` and `process_includes_recursive` (src/parser/markdown.rs) |
| `LastUpdate` | last_update.dfy | `substitute_last_update_variables` (src/parser/markdown.rs) |
| `Markers` | markers.dfy | `transform_achievement_markers` (src/parser/markdown.rs) |
| `SkillMatrix` | skill_matrix.dfy | The flexible skill-matrix module (src/parser/skill_matrix.rs) |
| `LegacyMatrix` | legacy_matrix.dfy | The older fixed-column skill-matrix pass (src/parser/markdown.rs) |
| `Html` | html.dfy | `wrap_sections`, `generate_nav_buttons` and `render_with_options` (src/renderer/html.rs) |

Each loop of the source is a `method` with loop invariants. It is proved
equal to a recursive specification function (`ensures r == Spec(input)`), and
lemmas state what that function promises. The file system and the clock are
parameters:

- a `map` from paths to file contents (or read errors) stands for
  `read_to_string`;
- a `map` from paths to dates stands for file modification times.

## Model

| member | source | states |
|---|---|---|
| Slugs.SlugifyIsPipeline | src/parser/sections.rs:58-68 | The slug is the lowercased title with every non-alphanumeric mapped to `-`, split at `-`, empty pieces dropped, joined with `-`. |
| Slugs.PiecesAreWords | src/parser/sections.rs:60-67 | The non-empty `-`-separated pieces of the dashed title are exactly its maximal runs of alphanumerics. |
| Slugs.SlugifyIsSlug | src/parser/sections.rs:58-68 | A slug holds only lowercase alphanumerics and single inner dashes: no leading, trailing or doubled `-`. |
| Slugs.SlugifyIdempotent | src/parser/sections.rs:58-68 | Slugifying a slug gives it back. |
| Slugs.SlugifyWithoutAlphanumerics | src/parser/sections.rs:58-68 | A title without alphanumerics has the empty slug. |
| Slugs.SlugifyWithAlphanumeric | src/parser/sections.rs:58-68 | A title with an alphanumeric has a non-empty slug. |
| Slugs.SlugifyHelloWorld | src/parser/sections.rs:95-96 | `Hello World` slugifies to `hello-world`. |
| Slugs.SlugifySelfAssessment | src/parser/sections.rs:97 | `Self-Assessment (EP)` slugifies to `self-assessment-ep`. |
| Sections.ScanHeadings | src/parser/sections.rs:15-45 | The scan loop yields one section per `<h2>` that has a `</h2>` after it, in order, with counted ids; it stops at the first unclosed `<h2>`. |
| Sections.SetEnds | src/parser/sections.rs:47-53 | Each section's end becomes the next section's start, and the last one's end becomes the length of the HTML. |
| Sections.ExtractSections | src/parser/sections.rs:11-56 | The result equals the specification `Extracted`: scanned headings with their ends patched. |
| Sections.FindOpenIsFind | src/parser/sections.rs:16 | The scan's search for `<h2>` is the first match from the search start. |
| Sections.ExtractedHeading | src/parser/sections.rs:16-39 | Section `i` starts at the `i`-th scanned `<h2>`. Its title is the text up to the first `</h2>` after it. Its id is the counted id of its slug. |
| Sections.ExtractedTiles | src/parser/sections.rs:47-53 | Each section starts at an `<h2>` and is non-empty. Sections tile the HTML from the first heading to the end. |
| Sections.SectionBounds | src/parser/sections.rs:16-41 | Scanned heading starts are strictly increasing and inside the HTML. |
| Sections.HeadingsOrdered | src/parser/sections.rs:41 | A later heading starts after the earlier heading's `</h2>`. |
| Sections.CountedIdBare | src/parser/sections.rs:25-31 | A section keeps its bare slug exactly when no earlier section had that slug. |
| Sections.CountedIdsDistinctPerSlug | src/parser/sections.rs:25-32 | Two sections with the same slug get different ids (`test`, `test-1`, `test-2`, …). |
| Sections.CountedIdsCanCollide | src/parser/sections.rs:25-32 | The count is per slug, so titles `Test`, `Test`, `Test 1` give two `test-1` ids. |
| Document.FreeIndex | src/parser/document.rs:155-161 | The counter of `generate_unique_id`'s loop stops at the first `k` whose candidate is unused, and every candidate before it is used. |
| Document.UniqueId | src/parser/document.rs:153-165 | The id is unused. It is the bare slug when that is free, and otherwise `slug-k` for the least `k >= 1` that is free. |
| Document.GenerateUniqueId | src/parser/document.rs:153-165 | The loop returns `UniqueId` and appends it to the used ids. |
| Document.UniqueIdAfterSlug | src/parser/document.rs:207-213 | After a slug has been used once, the same title gets `slug-1`. |
| Document.CollectSectionContent | src/parser/document.rs:112-124 | A section's body is the lines up to the next `## ` heading. |
| Document.CollectItemContent | src/parser/document.rs:76-91 | A dropdown item's body is the lines up to the next `## ` or `### ` heading. |
| Document.CollectItem | src/parser/document.rs:71-106 | Reading a `### ` heading in the dropdown adds one item panel and advances past its body, as the dropdown walk does. |
| Document.CollectDropdown | src/parser/document.rs:56-109 | The dropdown loop ends at the next `## ` heading (or at the end), having done what the dropdown walk does. |
| Document.CollectSection | src/parser/document.rs:51-139 | Reading a `## ` heading either opens the dropdown or adds one section panel plus a nav button, as the walk does. |
| Document.ParseDocumentStructure | src/parser/document.rs:37-150 | The result equals the specification walk `Parsed` over the lines of the Markdown. |
| Document.ParsedPanels | src/parser/document.rs:93-103 | Nav buttons are the non-item panels, and dropdown items are the item panels, each in panel order. Panel ids are pairwise distinct. |
| Document.ParsedProvenance | src/parser/document.rs:51-139 | Every panel comes from a distinct heading line, in line order. A section panel's title is that `## ` heading's title, and its body runs to the next `## `. An item panel comes from a `### ` heading inside the dropdown section. |
| Document.ParsedComplete | src/parser/document.rs:51-139 | Every `## ` heading other than the dropdown's, and every `### ` heading inside the dropdown section, has a panel made from it. |
| Document.ParsedDropdownTitle | src/parser/document.rs:56-58 | The dropdown title is set exactly when a `## ` heading carries the requested title. |
| Document.DropdownReservesSlug | src/parser/document.rs:54-74 | The dropdown heading uses up its slug, so a first `### ` item with the same title gets `slug-1`. |
| Document.ParsedWithoutSections | src/parser/document.rs:47-142 | Markdown without `## ` headings gives an empty structure. |
| Includes.IncludePathShape | src/parser/markdown.rs:126-128 | The include path is the text between the line's first `(` and the first `)` after it. |
| Includes.IncludePathOf | src/parser/markdown.rs:126-128 | For `pre(path)post` with no `(` in `pre` and no `)` in `path`, the include path is `path`. |
| Includes.DirectiveOutcomes | src/parser/markdown.rs:129-155 | A directive naming a `.md` file gives one of three results. An unreadable file gives the error line. A private file keeps the directive line. Any other file is spliced in, resolved one level down. |
| Includes.HeadingRelevelled | src/parser/markdown.rs:102-122 | A heading is rewritten with its level shifted by the parent level (inside included text), followed by the rest of the line. The new level is in effect afterwards. |
| Includes.IndentedHeadingGrows | src/parser/markdown.rs:118-119 | The level's `#`s are prepended to the untrimmed line cut at the level, so `  ## x` becomes `#### x` at level 2. |
| Includes.RunState | src/parser/markdown.rs:95-122 | After any prefix of the lines, the heading level in effect is the re-levelled level of the last heading that was not dropped, or the parent level before any. The first-H1 flag is set exactly when included text has had a level-1 heading. |
| Includes.DropsFirstH1 | src/parser/markdown.rs:105-108 | In included text, a line adds nothing exactly when it is the first level-1 heading. |
| Includes.ReadDirective | src/parser/markdown.rs:125-129 | A line is a directive exactly when its trimmed text starts with `Include:` and it has a `(…)` path ending in `.md`. |
| Includes.ProcessLine | src/parser/markdown.rs:98-161 | One iteration of the line loop, equal to the specification `LineOutcome`. |
| Includes.ProcessIncludesRecursive | src/parser/markdown.rs:87-165 | The loop's output equals the specification `Expand`. |
| Includes.ProcessIncludes | src/parser/markdown.rs:83-85 | Top-level expansion at level 0, not included. |
| Includes.ExpandPlain | src/parser/markdown.rs:98-161 | Text without directives and without indented headings comes back line by line, each line followed by `\n`. |
| Includes.ExpandMore | src/parser/markdown.rs:142-143 | Once an expansion succeeds with some fuel, more fuel gives the same text: fuel only bounds the depth. |
| Includes.UnreadableReported | src/parser/markdown.rs:148-153 | A directive whose file cannot be read becomes `**Error: Could not include '<path>': <error>**`. |
| Includes.MissingFileReported | src/parser/markdown.rs:148-153 | A missing file gives the not-found error line. |
| Includes.NonMarkdownKept | src/parser/markdown.rs:129 | A directive whose path does not end in `.md` is kept as it is. |
| Includes.PrivateFileKept | src/parser/markdown.rs:133-137 | A file starting with `PRIVATE_NEVER_AS_IS` is not spliced, and the directive line stays. |
| Includes.IncludedSpliced | src/parser/markdown.rs:138-146 | Any other file is replaced by its own expansion, relative to its parent directory, at the current level, followed by `\n`. |
| LastUpdate.LoopStep | src/parser/markdown.rs:32-50 | One round replaces the first token, up to the first `}}` after it, by the stamp of its path. It lowers the brace count and keeps the final result. |
| LastUpdate.SubstituteLastUpdateVariables | src/parser/markdown.rs:25-57 | The loop's result equals the specification `LastUpdated`. |
| LastUpdate.LastUpdatedLeftToRight | src/parser/markdown.rs:32-50 | The result is the text before the first closed token, then its stamp (`YYYY-MM-DD`, or `unknown`), then the result for the rest. |
| LastUpdate.LastUpdatedSettled | src/parser/markdown.rs:32-53 | The result has no `{{lastUpdate:` with a `}}` after it. |
| LastUpdate.LastUpdatedUnchanged | src/parser/markdown.rs:32-53 | The text comes back unchanged exactly when it has no closed token. |
| LastUpdate.LastUpdatedIdempotent | src/parser/markdown.rs:25-57 | Substituting twice is substituting once. |
| LastUpdate.StampOutside | src/parser/markdown.rs:38-47 | A stamp is non-empty and never contains a character of `{{lastUpdate:`. |
| Markers.MarkLine | src/parser/markdown.rs:63-76 | One line's rewrite equals the specification `MarkerLine`. |
| Markers.TransformAchievementMarkers | src/parser/markdown.rs:59-81 | The output is each line's rewrite followed by `\n`. |
| Markers.MarkerLineShape | src/parser/markdown.rs:63-76 | A line without `<!` is unchanged. Otherwise the line is unchanged exactly when only whitespace follows the first `<!`. If it changes, the text from the first non-whitespace after `<!` is wrapped in the marker span, and what came before `<!` is kept. |
| SkillMatrix.HeadingIff | src/parser/skill_matrix.rs:50-75 | A heading is a run of `#` followed by whitespace or the end, and its lowercased trimmed text contains `skill`, `matrix`, `competenc` or `proficienc`. |
| SkillMatrix.HeadingNeedsSpace | src/parser/skill_matrix.rs:296-300 | `#NoSpace` is not a skill-matrix heading. |
| SkillMatrix.DetectColumns | src/parser/skill_matrix.rs:78-136 | The header loop's result equals the specification `Detected`. |
| SkillMatrix.DetectedRoles | src/parser/skill_matrix.rs:78-136 | Each role takes the lowest cell that claims it and is not taken by an earlier role. Indices are distinct, and headers are the cells. Detection fails exactly when no cell claims a skill word, or no cell other than the first one claiming a skill word claims a value-column word such as `level` or `value` (so the header `Skill | Skills` fails). |
| SkillMatrix.StyleNotesShape | src/parser/skill_matrix.rs:246-257 | Notes not starting with `wip` (any case) are kept. Otherwise the WIP span is followed by the notes from their WIP cut on: after the three letters, whole ` -` pairs with no further pair, then whitespace up to the end or a character that is not whitespace. That cut is the only one. |
| SkillMatrix.WipCutUnique | src/parser/skill_matrix.rs:247-251 | Notes have at most one WIP cut: the number of ` -` pairs and the end of the whitespace are both fixed. |
| SkillMatrix.DashPairCount | src/parser/skill_matrix.rs:250 | Stripping ` -` repetitions from an index resumes exactly after the whole pairs that start there. |
| SkillMatrix.StyleNotesWip | src/parser/skill_matrix.rs:379-383 | `WIP - learning` becomes the WIP span followed by `learning`. |
| SkillMatrix.StyleNotesDoubleDash | src/parser/skill_matrix.rs:246-257 | `WIP -- x` becomes the WIP span followed by `- x`: only whole ` -` pairs are dropped, so the second dash stays. |
| SkillMatrix.RowShape | src/parser/skill_matrix.rs:209-238 | An empty skill gives no row. A bold skill with an empty value gives a category row spanning 3 columns (2 without notes). Any other skill gives skill, `level-<value>` and value cells, plus the styled notes cell exactly when there is a notes column. |
| SkillMatrix.RenderRow | src/parser/skill_matrix.rs:209-238 | The row loop body equals `RowHtml`. |
| SkillMatrix.RenderRows | src/parser/skill_matrix.rs:209-239 | The rows are the concatenation of the rows of the lines after the separator. |
| SkillMatrix.RenderSkillMatrixTable | src/parser/skill_matrix.rs:192-243 | The result equals the specification `RenderedTable`. |
| SkillMatrix.RenderedTableShape | src/parser/skill_matrix.rs:192-207 | There is no table exactly when there are fewer than 3 lines or no columns are detected. A table opens `<table class="skill-matrix">` and ends `</tbody>\n</table>`. |
| SkillMatrix.CollectBeforeTable | src/parser/skill_matrix.rs:152-158 | The lines before the first pipe line are passed through. |
| SkillMatrix.CollectTable | src/parser/skill_matrix.rs:160-172 | The table is the trimmed pipe lines, skipping blank lines, up to the first other line. |
| SkillMatrix.TransformedHeading | src/parser/skill_matrix.rs:147-185 | At a heading, a rendered table replaces everything up to the table's end. Otherwise the heading and pre-table lines are emitted, and the walk goes on from the line after the heading. |
| SkillMatrix.TransformSkillMatrices | src/parser/skill_matrix.rs:139-189 | The loop's result equals the specification `TransformedText`. |
| SkillMatrix.TextWithoutHeadings | src/parser/skill_matrix.rs:139-189 | Text without skill-matrix headings comes back line by line. |
| SkillMatrix.HeadingWithoutTableRepeats | src/parser/skill_matrix.rs:147-185 | As written: at a heading whose table does not render, the heading and the pre-table lines are emitted, then the heading again, then output that starts with the same pre-table lines. |
| SkillMatrix.HeadingWithoutTableTwice | src/parser/skill_matrix.rs:147-185 | As written: a heading followed by one ordinary line comes out as four lines: heading, line, heading, line. |
| SkillMatrix.TransformedOnceUnchanged | src/parser/skill_matrix.rs:147-185 | Corrected walk: when no table renders, every line comes out once, unchanged. |
| LegacyMatrix.PositionIn | src/parser/markdown.rs:238-240 | A header word has a position exactly when it is one of the cells. `Position` is the first such index. |
| LegacyMatrix.LegacyTableShape | src/parser/markdown.rs:228-244 | There is a table exactly when there are at least 3 lines and the header has cells exactly `Skill`, `Level` and `Notes`. It opens with the fixed three-column head and ends with the foot. |
| LegacyMatrix.LegacyRowShape | src/parser/markdown.rs:246-275 | A row with no more cells than the largest column index is skipped. A bold skill gives a colspan-3 category row whatever the level. Any other skill, empty included, gives a full row with styled notes. |
| LegacyMatrix.LegacyRenderRow | src/parser/markdown.rs:246-275 | The row loop body equals `LegacyRow`. |
| LegacyMatrix.LegacyRenderRows | src/parser/markdown.rs:246-276 | The rows are the concatenation of the rows of the lines after the separator. |
| LegacyMatrix.ParseSkillMatrixTable | src/parser/markdown.rs:228-280 | The result equals the specification `LegacyTable`. |
| LegacyMatrix.SkipBlankLines | src/parser/markdown.rs:191-195 | The table search skips blank lines after the heading. |
| LegacyMatrix.CollectLegacyTable | src/parser/markdown.rs:197-209 | The table is the trimmed pipe lines, skipping blank lines, up to the first other line. |
| LegacyMatrix.LegacyTransform | src/parser/markdown.rs:181-226 | The loop's result equals the specification `LegacyText`. |
| LegacyMatrix.LegacyReplaced | src/parser/markdown.rs:188-217 | At a line reading `#### skill matrix` (trimmed, any case) whose table renders, the heading, the blank lines and the table are replaced by the container. The walk resumes at the first line after the table. |
| LegacyMatrix.LegacyUnchanged | src/parser/markdown.rs:218-222 | When no heading has a rendering table, every line comes out once, unchanged. |
| LegacyMatrix.LegacyTextWithoutHeading | src/parser/markdown.rs:186-223 | Text without the heading comes back line by line. |
| Html.InnerAfterFirstClose | src/renderer/html.rs:28-31 | A panel shows the section's text after its first `</h2>`, or the whole slice when there is none. |
| Html.AppendPanels | src/renderer/html.rs:27-46 | The loop appends one wrapper per section, in order. |
| Html.WrapSections | src/renderer/html.rs:13-49 | The result equals the specification `Wrapped`. |
| Html.WrappedShape | src/renderer/html.rs:14-25 | No sections: the HTML is returned as is. Otherwise the text before the first section is kept exactly when it has no `<h1>`, and the wrappers follow. |
| Html.WrappersAppend | src/renderer/html.rs:27-46 | The wrappers of two runs of sections are the wrappers of each, concatenated. |
| Html.NavButtonsShape | src/renderer/html.rs:51-57 | No sections give the empty string. Button `k` is `<button>title</button>` at its offset, with the separator between consecutive buttons. |
| Html.EscapeIsReplace | src/renderer/html.rs:76 | Replacing `"` by `\"` is the character-wise escape. |
| Html.EscapeRoundTrip | src/renderer/html.rs:73-78 | Unescaping the escaped dropdown name gives the name back. |
| Html.ScriptPrefixShape | src/renderer/html.rs:73-81 | With a dropdown, the script declares the escaped name. Without one, it declares `null`. The asset script follows either way. |
| Html.RenderWithOptions | src/renderer/html.rs:62-93 | The page is the template with title, styles, logo, nav buttons, wrapped content and script substituted in that order. |
| Html.FillTemplateWithoutPlaceholders | src/renderer/html.rs:83-90 | A template without placeholders comes back unchanged. |
| Html.TitleBringsStyles | src/renderer/html.rs:83-90 | A replacement can rewrite text inserted earlier: a title `{{styles}}` in the template `{{title}}` becomes the styles. |
| Text.LinesUnlines | src/parser/document.rs:44 | Splitting the line-joined text of plain lines gives the lines back. |

## Left out

- Characters are ASCII only: `IsWhitespace`, `IsAlphanumeric` and `ToLower` in `Text` treat every non-ASCII character as non-whitespace, non-alphanumeric and already lowercase. So `Über` slugifies to `ber` here, where Rust's Unicode-aware `slugify` gives `über`. For the same reason a character index stands for Rust's byte index, and a slice that Rust would reject at a non-character boundary cannot occur.
- Includes.ProcessIncludes: the source has no cycle guard. A file that includes itself makes `process_includes_recursive` recurse until the stack overflows (src/parser/markdown.rs:142-143). The model bounds the depth with `fuel` and returns `None` when an include chain is deeper than that. `ExpandMore` shows the fuel changes no successful result.
- Includes.JoinPath and Includes.ParentPath are plain string functions, not Rust's `Path`. `Path::parent` normalises `.` components and repeated `/`: `a/./b.md` has parent `a` in Rust but `a/.` here, and `a//b.md` has parent `a` but `a/` here. A nested include under such a path therefore looks up a different key.
- Includes.ReadFile: the file system is a map. A path outside it reads as a not-found error, and error messages are kept as opaque strings.
- LastUpdate: modification dates come from a map standing for `fs::metadata(..).modified()` in local time. A path without an entry stamps `unknown`, as an unreadable one does in the source.
- `substitute_variables` (src/parser/markdown.rs:6-23) is not modelled: it reads the clock and iterates a `HashMap`, whose order is unspecified.
- `parse_markdown` (src/parser/markdown.rs:167-179) is not modelled: it calls the pulldown-cmark Markdown renderer, which is outside this model.
- `parse_skill_matrix` (src/parser/markdown.rs:282-349) is not modelled: it reads a file and repeats the table logic of `parse_skill_matrix_table`, which `LegacyMatrix` models.
- LegacyMatrix.LegacyRow reuses `StyleNotes` for the legacy notes styling. In the ASCII model, `notes[3..]` and `get(3..).unwrap_or("")` agree once the notes start with `wip`.
- `render` and `embed_image` (src/renderer/html.rs:96-100), src/lib.rs, src/main.rs and the asset embedder are not modelled: they read files, encode the logo in base64 and write the page. `RenderWithOptions` takes the logo's data URI as a parameter.
- Html.WrapSections requires every section to lie inside the HTML (`start <= end <= |html|`), where the source would panic on the slice. `extract_sections` always produces such sections.
- Html.Wrapper writes the toggle icon as the three characters the source file holds (a mis-encoded `▼`), not as the intended arrow.
- Html.ScriptPrefix escapes only `"`, as the source does: a backslash in the dropdown name is not escaped. `EscapeRoundTrip` holds for the model's own `Unescape`, not for a JavaScript parser.
- The renderer's `Result` error path only comes from `embed_image`, which is left out. `RenderWithOptions` therefore always returns a page.

## Findings

| source | as written | input that shows it | evidently intended | confidence | as-written member | corrected member |
|---|---|---|---|---|---|---|
| src/parser/skill_matrix.rs:147-185 | When a skill-matrix heading's table does not render, the heading and the lines before the table have already been pushed. Control then falls through to the generic push of the heading and continues at the next line, so the pre-table lines are pushed again. | The two lines `## Skills` and `no table here` come out as `## Skills`, `no table here`, `## Skills`, `no table here` (`SkillMatrix.HeadingWithoutTableTwice`). | Every line is emitted once when no table renders. | not executed | SkillMatrix.HeadingWithoutTableRepeats | SkillMatrix.TransformedOnceUnchanged |
