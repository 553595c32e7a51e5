# TradeDocs core, modelled in Dafny

TradeDocs generates technical documentation with a generative model and
keeps the documents in the browser. This project models the parts of it that
are plain computation:

- **The Markdown renderer** `markdownToHtml` (services/geminiService.js). It
  makes one pass over the lines of a document and keeps a little state: inside
  a fenced code block or not, and inside a list or not, of which kind. It writes
  markup for headings, list items, block quotes, paragraphs and code blocks.
  `processInline` turns `**…**`, `*…*` and `` `…` `` into strong, em and code
  spans.
  - `MarkdownRenderer.Render` specifies the renderer. It maps the text to block
    fragments.
  - `MarkdownRenderer.Html` spells the fragments out as the exact markup.
  - `MarkdownRenderer.MarkdownToHtml` is the source's loop over its own
    variables. It is proved to produce `Html(Render(markdown))`.
- **The citation de-duplication** at the end of the final generation.
- **The prompt context builder** `buildTeamContext` and the persona switch
  `getBaseSystemPersona`.
- **The structure editor and creation dialog** (components/CreationModal.js).
  This covers the two-level topic tree editors, the uploaded-file list and the
  generation steps form → loading → review → generating.
- **The document list** of the top-level component (App.js). This covers
  create, update, delete, the team-and-query filter, the responsible-name save
  and the load/save rules for browser storage.

Files:

| file | modules |
|---|---|
| text.dfy | `Wrappers` (Option, Result) and `Text` (trim, `\s`, split, join, includes) |
| inline_spans.dfy | `InlineSpans` (`processInline`) |
| escape.dfy | `CodeEscape` (the `<`/`>` escaping of code bodies) |
| markdown_renderer.dfy | `MarkdownRenderer` |
| source_dedup.dfy | `SourceDedup` |
| teams.dfy | `Teams` |
| team_context.dfy | `TeamContext` |
| seq_edit.dfy | `SeqEdit` (remove and insert by position, index filter) |
| creation_modal.dfy | `StructureTree`, `CreationDialog` |
| app_state.dfy | `DocumentList`, `Persistence` (browser storage and the responsible name), `AppState` |

The regular expressions of the renderer are written out by hand:

- `\s` and `trim` use JavaScript's whitespace and line-terminator set.
- `.` matches any code point except `\n`, `\r`, U+2028 and U+2029.
- A global `replace` scans left to right. At each position it takes the
  leftmost and laziest match, as the regular-expression engine does.

The components hold their state in React state variables. Here that state is a
class whose fields are those variables, and each setter call is a field
assignment. Each asynchronous handler is split at its `await`: the model has
one method before the remote call and one after it. The remote call's outcome
is a parameter of the second method.

## Model

| member | source | states |
|---|---|---|
| MarkdownRenderer.MarkdownToHtml | services/geminiService.js:148-258 | the loop over lines with its six state variables produces exactly the markup of the rendered fragments, `Html(Render(markdown))`; empty input gives "" |
| MarkdownRenderer.ReadLines | services/geminiService.js:174-254 | the `for` loop leaves its variables standing for the mode `Run(lines)` reaches and `html` holding the markup of `Run(lines)`'s fragments; a code block and a list are never open together |
| MarkdownRenderer.HandleLine | services/geminiService.js:175-253 | one loop iteration moves the variables to the state the specification's `Step` reaches and appends that step's markup; a code block and a list are never open together, and an open list is "ul" or "ol" |
| MarkdownRenderer.HandleKind | services/geminiService.js:205-253 | a line outside a code block, neither a fence nor blank, appends the markup the specification gives its kind and leaves open the list the specification says; an open list is "ul" or "ol" |
| MarkdownRenderer.WriteBlock | services/geminiService.js:208-213 | a heading, quote or paragraph closes the open list first, then writes its own markup; no list is open afterwards |
| MarkdownRenderer.WriteItem | services/geminiService.js:219-240 | an item reuses an open list of its kind or closes the other list and opens its own, then writes the item; the list of its kind is open afterwards |
| MarkdownRenderer.CloseOpenList | services/geminiService.js:167-172 | `closeList` appends the closing tag of the open list, if any, and leaves no list open |
| MarkdownRenderer.Render | services/geminiService.js:158-258 | the fragments of a document: none for empty input, else the lines split at '\n' run through `Step` and closed by `Finish`; pinned down by `RenderWellNested`, `RenderOfLines`, `CodeBlockDocument` and the loop `MarkdownToHtml` proved equal to it |
| MarkdownRenderer.Step | services/geminiService.js:175-253 | one line's effect on the mode and the fragments it emits; its cases are the lemmas `StepOpensFence`, `StepBuffers`, `StepClosesFence`, `StepBlank`, `StepIsBlockStep`, `StepAddsItem` and `StepNests` |
| MarkdownRenderer.KindStep | services/geminiService.js:205-253 | a heading, quote or paragraph closes the open list then writes its block, an item goes through `AddItem`; `KindStepNests` proves the nesting kept and `HandleKind` is proved to follow it |
| MarkdownRenderer.Classify | services/geminiService.js:206-253 | the kind of a line in the source's order of patterns; `ClassifyFollowsPatterns` states each kind as the pattern it matches, with `HeadingLevelUnique` and `NumberRunUnique` for the greedy runs |
| MarkdownRenderer.Finish | services/geminiService.js:256 | the final `closeList()` appends the closing of the open list and drops an unterminated code block; `FinishWellNested` and `UnterminatedFenceDropsRest` state it |
| MarkdownRenderer.Html | services/geminiService.js:164-253 | the markup of each fragment concatenated in order; `HtmlAppend` proves it distributes over concatenation, which the loop `ReadLines` relies on |
| MarkdownRenderer.CloseList | services/geminiService.js:167-172 | the closing tag of the open list and nothing when none is open; `CloseListNests` and the method `CloseOpenList` are proved against it |
| MarkdownRenderer.AddItem | services/geminiService.js:218-241 | an item joins an open list of its kind, otherwise closes the open list and opens its own; `AddItemOpens`, `ItemNests` and `ItemsShareOneList` state it |
| MarkdownRenderer.RenderWellNested | services/geminiService.js:164-172 | in every rendered document each list opening is closed by the matching kind before any other block, and no list is left open at the end |
| MarkdownRenderer.FinishWellNested | services/geminiService.js:174-256 | the loop followed by the final `closeList()` leaves every list closed by the matching kind |
| MarkdownRenderer.RunNests | services/geminiService.js:174-254 | after any prefix of the lines, the fragments so far are balanced up to the one list the state says is open |
| MarkdownRenderer.StepNests | services/geminiService.js:175-253 | every kind of line keeps list openings and closings balanced against the state |
| MarkdownRenderer.KindStepNests | services/geminiService.js:205-253 | headings, items, quotes and paragraphs keep list openings and closings balanced against the state |
| MarkdownRenderer.ItemNests | services/geminiService.js:218-241 | an item leaves exactly the list of its kind open |
| MarkdownRenderer.CloseListNests | services/geminiService.js:167-172 | closing the list returns the nesting to "no list open" |
| MarkdownRenderer.ItemsShareOneList | services/geminiService.js:218-241 | consecutive items of one kind share a single list container: one opening (none if that list was already open) followed by one item per line |
| MarkdownRenderer.ListEndsAtOtherLine | services/geminiService.js:200-252 | inside a list, any line that is not an item of that kind (blank line, heading, fence, quote, paragraph, other kind of item) closes the list first |
| MarkdownRenderer.ClassifyFollowsPatterns | services/geminiService.js:206-253 | each line is a heading iff it has 1 to 3 '#' then whitespace, else a bullet iff it starts with '*', '-' or '+' then whitespace, else a numbered item iff digits, '.' and whitespace, else a quote iff '>' then whitespace, else text; each captured content is the rest of the line after the whitespace |
| MarkdownRenderer.RestOfLineIsCapture | services/geminiService.js:206-244 | a capture `(.*)` after `\s+` starts right after the whole run of whitespace, holds no line terminator and runs to the first line terminator or the end of the line |
| MarkdownRenderer.HeadingLevelUnique | services/geminiService.js:206-209 | the heading level is the number of leading '#' |
| MarkdownRenderer.NumberRunUnique | services/geminiService.js:231 | the numbered-item pattern can only match the whole leading run of digits |
| MarkdownRenderer.FourHashesIsText | services/geminiService.js:206 | "#### A" is not a heading; it falls through to a paragraph |
| MarkdownRenderer.HashSpaceIsEmptyHeading | services/geminiService.js:206-211 | "# " is a level-1 heading with empty content |
| MarkdownRenderer.DigitsWithoutSpaceAreText | services/geminiService.js:231 | "1.x" is not a numbered item |
| MarkdownRenderer.NumberedItemExample | services/geminiService.js:231-239 | "12. x" is a numbered item with content "x" |
| MarkdownRenderer.FenceLanguage | services/geminiService.js:182 | the language of an opening fence is the rest of the trimmed line, or "text" when that is empty, so it is never empty |
| MarkdownRenderer.StepOpensFence | services/geminiService.js:178-183 | outside a code block, a fence line closes the open list and starts an empty buffer with the fence's language |
| MarkdownRenderer.StepBuffers | services/geminiService.js:194-197 | inside a code block, any non-fence line is appended to the buffer unchanged and emits nothing |
| MarkdownRenderer.StepClosesFence | services/geminiService.js:178-190 | inside a code block, any fence line, with or without a language, closes it and emits one code block with the buffered lines |
| MarkdownRenderer.FenceBuffersLines | services/geminiService.js:178-197 | after an opening fence, all following non-fence lines go to the buffer and produce no paragraph, item, heading or quote |
| MarkdownRenderer.BodyBuffers | services/geminiService.js:194-197 | inside a code block a run of non-fence lines grows the buffer by exactly those lines and writes nothing |
| MarkdownRenderer.UnterminatedFenceDropsRest | services/geminiService.js:256 | a fence that is never closed contributes nothing: the document renders as if it ended before the fence |
| MarkdownRenderer.FencedBlockKept | services/geminiService.js:178-197 | a closed fence emits exactly one code block holding the raw lines between the fences |
| MarkdownRenderer.FencedBlockAlone | services/geminiService.js:178-197 | the lines of one fenced block, with nothing around them, render to that block alone |
| MarkdownRenderer.CodeBlockDocument | services/geminiService.js:159-192 | a document made of a fence, body lines and a closing fence renders to exactly one code block with that body |
| MarkdownRenderer.RenderOfLines | services/geminiService.js:149-159 | rendering a text joined from lines processes exactly those lines |
| InlineSpans.ProcessInline | services/geminiService.js:152-157 | the bold pass, then the italic pass, then the code pass, each a global leftmost replace |
| InlineSpans.Replace | services/geminiService.js:152-157 | one global replace: the leftmost matches rewritten, plain text copied; `ScanIsLeftmost`, `ReplaceWithoutOccurrence`, `ReplacePlainPrefix`, `ReplaceMatchFirst` and `ReplaceNoMatchFirst` state it |
| InlineSpans.FirstClose | services/geminiService.js:154-155 | the lazy `(.*?)` stops at the first closing delimiter, and that delimiter does not cross a line terminator |
| InlineSpans.MatchAt | services/geminiService.js:154-156 | a match at the start of the text is delimiter, content, delimiter, with content the pattern allows; it closes at the first closing delimiter after the opening one, as the lazy `(.*?)` does; and it is absent only when no content at all fits the pattern |
| InlineSpans.MatchAtIsShortest | services/geminiService.js:154-156 | whenever the pattern matches at the start with some content, the match is found and its content is no longer than that one: the shortest, as the lazy quantifier takes |
| InlineSpans.SpanFramed | services/geminiService.js:154-156 | a span runs from the opening delimiter to the closing one found after it |
| InlineSpans.CodeContent | services/geminiService.js:156 | the text between a backtick and the first backtick after it has no backtick, as `[^`]+` requires |
| InlineSpans.EmphasisContent | services/geminiService.js:154-155 | the text a lazy emphasis match holds contains no occurrence of its delimiter |
| InlineSpans.Scan | services/geminiService.js:153-156 | the scan cuts the text into plain characters and matched spans that reassemble the text exactly |
| InlineSpans.ScanIsLeftmost | services/geminiService.js:153-156 | at no character the scan left as plain text does the pattern match with any content, so no match is skipped and every match is the leftmost one |
| InlineSpans.ReplaceWithoutOccurrence | services/geminiService.js:154-156 | a text with no occurrence of a pass's delimiter is left unchanged by that pass |
| InlineSpans.ReplacePlainPrefix | services/geminiService.js:154-156 | a prefix without the delimiter's first character passes through a replace unchanged |
| InlineSpans.PlainTextUnchanged | services/geminiService.js:152-157 | a line with no '*' and no '`' is returned unchanged |
| InlineSpans.BoldIsLazy | services/geminiService.js:154-155 | "**a** b**" gets strong around "a" and the trailing "**" becomes an empty em |
| InlineSpans.BoldPassIsLazy | services/geminiService.js:154 | the bold pass stops at the first closing "**" |
| InlineSpans.ItalicPassAfter | services/geminiService.js:155-156 | after text free of '*' and '`', a trailing "**" becomes an empty em and the code pass changes nothing |
| InlineSpans.DoubleStarIsEmptyItalic | services/geminiService.js:154-155 | a lone "**" is not bold and becomes an empty em span |
| InlineSpans.CodeAroundRun | services/geminiService.js:156 | a backtick-delimited run of non-backtick characters becomes one code span |
| InlineSpans.CodeAfterEmphasis | services/geminiService.js:154-156 | the code pass runs on the output of the emphasis passes: "`*x*`" becomes a code span that holds an em span |
| InlineSpans.ItalicPassInsideCode | services/geminiService.js:155 | the italic pass rewrites stars inside backticks |
| InlineSpans.BoldPassSkipsSingleStars | services/geminiService.js:154 | single stars are left for the italic pass |
| CodeEscape.ReplaceChar | services/geminiService.js:188 | a global replace of one character removes it when the replacement does not hold it, and changes nothing when it is absent |
| CodeEscape.Escape | services/geminiService.js:188 | the two chained replaces of '<' and '>'; `EscapeIsPointwise`, `EscapeHasNoAngles` and `UnescapeEscape` state what they do |
| CodeEscape.EscapeIsPointwise | services/geminiService.js:188 | the two chained replaces escape each '<' and '>' on its own and copy every other character |
| CodeEscape.EscapeHasNoAngles | services/geminiService.js:188 | an escaped code body contains no '<' and no '>' |
| CodeEscape.UnescapeEscape | services/geminiService.js:188 | for text without '&', undoing the two entities gives the buffered code back, so the escaping loses nothing |
| Text.Split | services/geminiService.js:159 | `split('\n')` gives at least one piece, no piece holds '\n', and joining with '\n' gives the text back |
| Text.SplitJoin | services/geminiService.js:159 | splitting a '\n'-join of newline-free lines gives the lines back |
| Text.Trim | services/geminiService.js:178 | `trim` removes exactly the leading and trailing whitespace |
| Text.TrimEmptyIff | services/geminiService.js:200 | a line is blank iff it is all whitespace |
| Text.ContainsIff | App.js:151-154 | `includes` holds iff the text occurs at some position |
| SourceDedup.Dedup | services/geminiService.js:144 | the result's URLs are the distinct input URLs in first-occurrence order, each entry is the first source with its URL, and it is no longer than the input |
| SourceDedup.Distinct | services/geminiService.js:144 | `Array.from(new Set(urls))` holds exactly the input URLs, each once, and is no longer than the input |
| SourceDedup.Find | services/geminiService.js:144 | `find` returns the first source with the URL, and nothing iff no source has it |
| SourceDedup.DedupUrlsDistinctAndComplete | services/geminiService.js:144 | the kept URLs are pairwise distinct and are exactly the input URLs |
| SourceDedup.DedupInOrder | services/geminiService.js:144 | the entries follow the order in which their URLs first occur in the input |
| SourceDedup.DedupTakesFirstRecord | services/geminiService.js:144 | each entry is an input record and no earlier record carries its URL |
| SourceDedup.DistinctInFirstOccurrenceOrder | services/geminiService.js:144 | the `Set` keeps the URLs in the order of their first occurrence |
| SourceDedup.DistinctOfDistinct | services/geminiService.js:144 | a list of distinct URLs passes through the set unchanged |
| SourceDedup.DedupIdempotent | services/geminiService.js:144 | de-duplicating twice is de-duplicating once |
| TeamContext.BuildTeamContext | services/geminiService.js:24-48 | the accumulating builder returns exactly `Context(t)`: goal, files and pasted-code sections in that order, or the fallback sentence |
| TeamContext.Context | services/geminiService.js:24-48 | the goal, files and pasted-code sections in that order, or the fallback sentence; `FallbackIff`, `DescriptionComesFirst`, `FilesFollowDescription` and `PastedCodeComesLast` state it, and `BuildTeamContext` is proved to compute it |
| TeamContext.AppendFileBlocks | services/geminiService.js:32-39 | the `forEach` appends the blocks of all files, in order |
| TeamContext.FallbackIff | services/geminiService.js:47 | "Sem contexto técnico adicional." is returned exactly when there is no description, no file and no pasted code |
| TeamContext.DescriptionComesFirst | services/geminiService.js:27-29 | with a description, the context starts with the goal title and the description |
| TeamContext.FilesFollowDescription | services/geminiService.js:31-40 | with files, the files title and one block per file come right after the goal section |
| TeamContext.PastedCodeComesLast | services/geminiService.js:42-44 | with pasted code, the context ends with the pasted-code section |
| TeamContext.FileBlocksAppend | services/geminiService.js:33-39 | the file blocks follow the order of the file list |
| TeamContext.FileBlockWrapsJson | services/geminiService.js:34-38 | each block names its file; a 'json' file's content is wrapped in a json fence, any other file's content is written as it is |
| TeamContext.PersonaEndsWithBase | services/geminiService.js:7-22 | every persona, the default one included, ends with the base instruction |
| TeamContext.Persona | services/geminiService.js:7-22 | the role text of the team, or the generic consultant, followed by the base instruction; `PersonaEndsWithBase`, `PersonaDefaultIff` and `PersonasDiffer` state it |
| TeamContext.PersonaDefaultIff | services/geminiService.js:9-21 | the generic consultant persona goes exactly to strings that are not a team value |
| TeamContext.PersonasDiffer | services/geminiService.js:9-18 | different teams get different personas |
| Teams.ParseTeam | App.js:91 | a stored string is recognised only as the team it names |
| StructureTree.RetitledChangesOneTitle | components/CreationModal.js:32-36 | renaming changes the title at the addressed item (top-level item, or child of an item) and no other title; shape and ids are unchanged |
| StructureTree.RetitleBack | components/CreationModal.js:32-36 | renaming back to the old title restores the tree |
| StructureTree.Retitled | components/CreationModal.js:32-36 | the tree with one title replaced at a valid address; `RetitledChangesOneTitle` and `RetitleBack` state it |
| StructureTree.WithItemAdded | components/CreationModal.js:37-42 | the tree with a 'Novo Tópico' item appended at the top level or to one item's children; `AddTopLevelThenRemove` and `AddChildThenRemove` state it |
| StructureTree.WithItemRemoved | components/CreationModal.js:43-47 | the tree with one item spliced out at the top level or from one item's children; `RemoveTopLevel` and `RemoveChild` state it |
| StructureTree.AddTopLevelThenRemove | components/CreationModal.js:37-42 | a top-level add appends one 'Novo Tópico' item and keeps the rest; removing it restores the tree |
| StructureTree.AddChildThenRemove | components/CreationModal.js:37-42 | a child add touches only its parent, appends a 'Novo Tópico' child and creates the list if absent; removing that child restores the tree, except that a created list stays empty |
| StructureTree.RemoveTopLevel | components/CreationModal.js:43-47 | removing a top-level item keeps the others in order; reinserting it restores the tree |
| StructureTree.RemoveChild | components/CreationModal.js:43-47 | removing a child touches only its parent's child list; reinserting the child restores that list |
| StructureTree.Stamped | components/CreationModal.js:107 | generated topics keep their titles and children, and topic `i` gets the clock reading taken for it plus `i` |
| StructureTree.StampedIdsDistinct | components/CreationModal.js:107 | when the clock never runs backwards between readings, the ids strictly increase, so they are pairwise distinct |
| StructureTree.StampedIdsCollideOnBackwardClock | components/CreationModal.js:107 | a reading one lower than the previous one gives two topics the same id, so distinctness rests on the clock |
| SeqEdit.RemoveAt | components/CreationModal.js:46 | `splice(i, 1)` keeps the elements before `i` and shifts the rest down by one |
| SeqEdit.RemoveInsert | components/CreationModal.js:46 | removing an inserted element gives the list back |
| SeqEdit.InsertRemove | components/CreationModal.js:46 | putting a removed element back at its position gives the list back |
| SeqEdit.RemoveAtMultiset | components/CreationModal.js:46 | a removal takes exactly one copy of the element out |
| SeqEdit.WithoutIndexIsRemoveAt | components/CreationModal.js:93-98 | the index filter removes exactly the element at the index when there is one, and copies the list otherwise |
| SeqEdit.WithoutIndex | components/CreationModal.js:93-98 | the index filter, walking the list and skipping position `index`; `WithoutIndexIsRemoveAt` states what it keeps |
| CreationDialog.FileKindOf | components/CreationModal.js:85 | an uploaded file is tagged 'json' iff its name ends with ".json" |
| CreationDialog.UploadThenRemove | components/CreationModal.js:83-97 | removing the file just uploaded, at its index, gives the file list back |
| CreationDialog.DialogContextHasNoGoal | components/CreationModal.js:74 | the dialog's `teamData` has no description, so its context never has a goal section and falls back exactly when there are no files and no pasted code |
| CreationDialog.CreationModal.constructor | components/CreationModal.js:67-74 | the dialog starts on the form, with empty fields, no files and no pasted code |
| CreationDialog.CreationModal.SetProjectName | components/CreationModal.js:172 | the name can be edited only on the form |
| CreationDialog.CreationModal.SetDescription | components/CreationModal.js:181 | the description field is replaced and `teamData` is left alone |
| CreationDialog.CreationModal.SetPastedCode | components/CreationModal.js:189-190 | only `pastedCode` of `teamData` is replaced; its description stays empty |
| CreationDialog.CreationModal.AddUploadedFile | components/CreationModal.js:80-86 | an uploaded file is appended with the type its name calls for, and nothing else changes |
| CreationDialog.CreationModal.RemoveFile | components/CreationModal.js:93-98 | `removeFile(i)` removes exactly the file at `i` and keeps the others in order |
| CreationDialog.CreationModal.StartStructures | components/CreationModal.js:100-104 | a blank trimmed name sets the error and stays on the form; otherwise the error is cleared and the step becomes loading |
| CreationDialog.CreationModal.FinishStructures | components/CreationModal.js:105-112 | on success the stamped structure is shown for review; on failure the error is prefixed and the step returns to the form |
| CreationDialog.CreationModal.ChangeTitle | components/CreationModal.js:32-36 | the structure becomes the renamed copy |
| CreationDialog.CreationModal.AddItem | components/CreationModal.js:37-42 | the structure becomes the copy with the item added |
| CreationDialog.CreationModal.RemoveItem | components/CreationModal.js:43-47 | the structure becomes the copy with the item removed |
| CreationDialog.CreationModal.StartFinal | components/CreationModal.js:115-117 | from review the step becomes generating and the streamed text is cleared |
| CreationDialog.CreationModal.ReceiveToken | components/CreationModal.js:119 | each streamed token is appended to the streamed text |
| CreationDialog.CreationModal.ReceiveProgress | components/CreationModal.js:119 | the progress callback replaces the loading message |
| CreationDialog.CreationModal.FinishFinal | components/CreationModal.js:118-125 | on success the document is handed over and the dialog closes; on failure the error is prefixed and the step returns to review |
| DocumentList.MergeProperties | App.js:118-121 | `{ ...doc, ...updates }`: merging twice is merging once, an empty update changes nothing, and absent fields keep their values |
| DocumentList.Merge | App.js:118-121 | `{ ...doc, ...updates }`, each field the update carries winning; `MergeProperties` states it |
| DocumentList.Prepend | App.js:103-115 | `[newDocument, ...documents]`; `DeleteAfterCreate` and `CreatedDocumentListedFirst` state what it does to deletion and to the filtered list |
| DocumentList.UpdatedDocs | App.js:118 | the update keeps length and order, merges into every document with the id and leaves the others identical |
| DocumentList.UpdateIdempotent | App.js:118 | applying the same update twice is applying it once |
| DocumentList.FilterMembership | App.js:126 | `filter` keeps exactly the elements its test accepts |
| DocumentList.FilterAppend | App.js:126 | `filter` keeps the original order |
| DocumentList.WithoutIdMembership | App.js:126 | delete removes every document with the id and keeps every other |
| DocumentList.WithoutId | App.js:126 | the filter on a different id; `WithoutIdMembership`, `DeleteAfterCreate` and `DeleteAfterUpdate` state it |
| DocumentList.DeleteAfterCreate | App.js:103-126 | deleting a freshly created document gives the old list back |
| DocumentList.DeleteAfterUpdate | App.js:117-126 | an update that keeps ids does not change what deleting that id leaves |
| DocumentList.FilteredMembership | App.js:151-154 | a document is listed iff it belongs to the current team and its lower-cased title or content contains the lower-cased query |
| DocumentList.Filtered | App.js:151-154 | the team-and-query filter; `FilteredMembership`, `EmptyQueryListsTeam` and `CreatedDocumentListedFirst` state it |
| DocumentList.EmptyQueryListsTeam | App.js:151-154 | an empty query lists every document of the team, in order |
| DocumentList.CreatedDocumentListedFirst | App.js:112-154 | a new document that passes the filter is listed first |
| Persistence.SavedName | App.js:22-28 | the saved responsible name is the trimmed input, present iff the input is not blank, and never starts or ends with whitespace |
| Persistence.Restored | App.js:84-94 | a stored team is adopted only if it names a team; onboarding is skipped only when both the flag and a name are stored |
| Persistence.RestoreAfterPersist | App.js:84-101 | what the save effect writes after onboarding is what the load effect restores |
| Persistence.Persisted | App.js:96-101 | the save effect's writes, the onboarded flag only once onboarding is over; `RestoreAfterPersist` states that the load effect reads them back |
| AppState.App.constructor | App.js:68-82 | the application starts with the Developers team, no documents and the onboarding shown |
| AppState.App.Restore | App.js:84-94 | the load effect sets the state to `Restored` of the stored items |
| AppState.App.HandleDocumentCreate | App.js:103-115 | the new document is put first, the old ones follow in order, it is selected and marked last viewed; missing sources default to [] |
| AppState.App.HandleDocumentUpdate | App.js:117-123 | every document with the id is merged; the selected document is replaced only if its id matches |
| AppState.App.RequestDelete | App.js:220 | the card's delete button records the document and opens the confirmation |
| AppState.App.CancelDelete | App.js:249 | cancelling closes the confirmation and changes nothing else |
| AppState.App.HandleConfirmDelete | App.js:125-129 | every document with the recorded id is removed, the list is unchanged when none is recorded, and the dialog is closed and cleared |
| AppState.App.SaveResponsible | App.js:22-28 | a non-blank name is stored trimmed, and the dialog closes either way |
| AppState.App.CompleteOnboarding | App.js:139-143 | onboarding sets the team and the name and hides itself |

## Left out

- Network, streaming and asynchrony. The calls to the generative model
  (`generateDocumentStructure`, `generateFullDocumentContent`) are not modelled.
  Their results reach the dialog's methods as `Result` parameters. The
  streaming loop that collects the citations is not modelled either; only the
  de-duplication expression applied to them is.
- Host APIs: `localStorage`, `FileReader`, `JSON.parse`/`JSON.stringify`,
  `Date.now`, `toISOString` and `toLocaleString`.
  - Stored items are a `Storage` value; "" stands for a missing item.
  - Parsing the stored documents is taken to give back what was saved.
  - A `JSON.parse` failure is not modelled.
  - Ids and timestamps are parameters.
- `toLowerCase` is the parameter `lower` of the filter, because Unicode case
  mapping is not modelled. `DocumentList.EmptyQueryListsTeam` assumes
  `lower("") == ""`.
- The string values of `Team` come from a module that is not part of this
  model. `Teams.TeamName` uses stand-in names. The proofs rely only on the
  four names being pairwise different.
- React rendering, styling and the presentational components.
  - The class attributes in the emitted markup are copied as constants.
  - The `title || url` link fallback of the document preview is not modelled.
  - The rendering of the dialog's steps is not modelled, beyond which
    operations each step offers.
- Deep copies (`JSON.parse(JSON.stringify(structure))`): the tree edits are
  functions on immutable values. The structure passed in is therefore never
  changed, and no lemma is needed for that.
- StructureTree.Retitled, WithItemAdded and WithItemRemoved: they require a
  valid index, which the editor only ever passes because the indices come from
  rendering the tree. With an out-of-range index the source throws on a missing
  item; an out-of-range top-level `splice` is a no-op. Neither case is modelled.
- AppState.App.Restore: the effect that saves state also runs once with the
  initial state, before the restored state arrives. Only its final effect is
  modelled (`Persistence.Persisted`).
- CreationDialog.CreationModal.FinishFinal: `onClose` unmounts the dialog, so
  the model only reports `closed` and keeps the state.
- The dialog never puts the typed-in description into `teamData`: it starts
  without one (components/CreationModal.js:74), only its pasted code and files
  change, and the description goes to the generator beside it. The goal
  section of `TeamContext.Context` is therefore never produced from the
  dialog; `CreationDialog.DialogContextHasNoGoal` states what it produces.
- The stream's fallback document title and the progress percentages are not
  modelled.

Where the behaviour described for the renderer differs from the code, the
model follows the code:

- An unterminated fence drops its buffered lines. At the end only `closeList`
  runs. See `MarkdownRenderer.UnterminatedFenceDropsRest`.
- Any line whose trimmed text starts with three backticks closes an open code
  block, even one with a language tag. See
  `MarkdownRenderer.StepClosesFence`.
- A heading needs one or more whitespace characters after the '#'s, not
  exactly one space. "# " is an empty heading.
- The inline-code pass runs on the output of the bold and italic passes. Stars
  inside backticks are therefore rewritten. See `InlineSpans.CodeAfterEmphasis`.
- A lone "**" is not left literal: the italic pass turns it into an empty em.
  See `InlineSpans.DoubleStarIsEmptyItalic`.
- The code body escapes only '<' and '>'; '&' is left as it is.
- There is no reference-list composition step: citations are only
  de-duplicated.
