# CSV column mapping prototype, modelled in Dafny

This project models the logic of a browser prototype that maps the columns of an
uploaded CSV file to a user-defined list of output field names ("captions"). A
rule-based chat helper assists by suggesting column-to-caption pairs. The model covers:

- the CSV line parser of the upload component: blank lines dropped, a quote
  toggle, cells split on unquoted commas and trimmed (`csv_upload.dfy`);
- the caption-list editor: add, remove, edit in place, save, cancel, key
  handling, quick-add buttons (`table_captions.dfy`);
- the column-to-caption record the page keeps: an insertion-ordered object
  keyed by column name (`mappings.dfy`);
- the page component's state and handlers, plus the progress flags of its tabs
  (`prototype_page.dfy`);
- the views the mapping panel derives: unmapped columns, free captions, column
  previews, the status badge and the preview table (`mapping_display.dfy`);
- the chat helper's scripted reply logic and its message list (`ai_chat.dfy`);
- the bundled sample datasets and the caption suggester that picks a caption
  set from keywords in the header (`mock_data.dfy`).

Two supporting modules are shared by all of the above:

- `text.dfy` holds the string operations the code relies on: trim,
  lower-case, `includes`, `split` and `join`.
- `sequences.dfy` holds generic sequence helpers: subsequences, filtering out one value, `Math.min`, and facts about sequences without repeats.

Files that are pure computation are written as functions and lemmas. The three
stateful React components are written as classes whose fields are the
component state and whose methods are the handlers:

- `PrototypePage.Session`;
- `TableCaptions.CaptionEditor`;
- `AiChat.Chat`.

The parser keeps the source's per-character loop as a method (`ParseLine`),
proved against a scanning function.

Three details of the code shape the model:

- The parser always splits on a comma; it takes no delimiter argument.
- Suggestions come from two places. `getSuggestedCaptionsForData` picks one of
  five caption sets by keywords in the header. The chat helper's first-match
  rules attach the fixed confidences 0.85, 0.95 and 0.75.
- The record is a plain object literal, so reading a column name that is not
  an own key but is inherited from `Object.prototype` (`constructor`,
  `toString`, ...) gives a truthy value. The model's `IsMapped` follows this,
  and `MappingDisplay.InheritedNameReadsAsMapped` shows its effect on the views.

## Model

| member | source | states |
|---|---|---|
| CsvUpload.ParseCsv | client/components/csv-upload.tsx:14-40 | The method's loop over the lines yields exactly `Parse(text)`: one row per non-blank line, each row the line's parsed cells |
| CsvUpload.Parse | client/components/csv-upload.tsx:14-40 | One row per line of the text that is not blank, in order, each row the parsed cells of that line |
| CsvUpload.ParseLine | client/components/csv-upload.tsx:18-38 | The character loop with its `inQuotes` flag and `current` buffer returns the cells of the scanning specification `ParsedLine` |
| CsvUpload.ScanShape | client/components/csv-upload.tsx:20-35 | After scanning a prefix, the quote flag is the parity of the quotes seen, the finished cells number the unquoted commas, every finished cell is trimmed and quote-free, and the buffer holds no quote |
| CsvUpload.ParsedLineCellCount | client/components/csv-upload.tsx:29-37 | A line yields one more cell than it has commas outside quotes |
| CsvUpload.ParsedLineCellsClean | client/components/csv-upload.tsx:27-37 | No cell contains a quote character or has leading or trailing whitespace |
| CsvUpload.ParsedCellsAreOwnTrim | client/components/csv-upload.tsx:30-37 | Every cell is the trim of itself, so trimming the parser's output again changes nothing |
| CsvUpload.ScanWithoutQuotes | client/components/csv-upload.tsx:24-35 | On a text without quotes the scan is a split at every comma with each finished piece trimmed |
| CsvUpload.ParsedLineWithoutQuotes | client/components/csv-upload.tsx:24-38 | A line without quotes parses to the trimmed pieces of `line.split(",")` |
| CsvUpload.ScanInsideQuotes | client/components/csv-upload.tsx:27-33 | Once the quote flag is set, text without quotes is buffered as it is and finishes no cell |
| CsvUpload.OddQuotesAbsorbCommas | client/components/csv-upload.tsx:22-37 | After an odd number of quotes, every later comma on the line stays inside the current cell |
| CsvUpload.NonBlankMembers | client/components/csv-upload.tsx:17 | The kept lines are the non-blank ones, in order |
| CsvUpload.NonBlankCount | client/components/csv-upload.tsx:17 | Each non-blank line is kept as often as the text has it, and no blank line is kept |
| CsvUpload.NonBlankAppend | client/components/csv-upload.tsx:15-17 | Filtering blank lines distributes over concatenation |
| CsvUpload.LinesParseIndependently | client/components/csv-upload.tsx:15-22 | Parsing two texts joined by a newline gives the rows of the first followed by the rows of the second |
| Text.TrimSpec | client/components/csv-upload.tsx:30 | The trim of a text is the slice after its leading whitespace, with only whitespace before and after it; it has no surrounding whitespace and is empty exactly when the text is blank |
| Text.SplitJoin | client/components/csv-upload.tsx:15 | Joining the pieces of a split with the separator gives the text back |
| Text.SplitPiecesAvoid | client/components/csv-upload.tsx:15 | No piece of a split contains the separator |
| Text.SplitAppend | client/components/csv-upload.tsx:15 | Splitting `a + d + b` gives the pieces of `a` followed by the pieces of `b` |
| Text.TrimIdempotent | client/components/table-captions.tsx:19-20 | Trimming twice is trimming once |
| Text.ContainsIff | client/components/ai-chat.tsx:52 | `includes` holds exactly when the pattern occurs at some position, the empty pattern included |
| Text.Lower | client/lib/mock-data.ts:66 | Lower-casing keeps the length and maps each character on its own |
| Mappings.GetSpec | client/components/mapping-display.tsx:24-26 | Looking up a column finds a caption exactly when the column is a key of the record, and the caption found is the one stored with it |
| Mappings.PutKeys | client/pages/CSVMappingPrototype.tsx:44-47 | Setting a column keeps the key order and appends the column when it is new |
| Mappings.PutGet | client/pages/CSVMappingPrototype.tsx:44-47 | After setting a column, it reads the new caption and every other column reads what it did |
| Mappings.PutSpec | client/pages/CSVMappingPrototype.tsx:43-48 | Setting a column keeps the record free of repeated keys, with the lookups and key order above |
| Mappings.PutNewKeyValues | client/pages/CSVMappingPrototype.tsx:44-47 | Setting a new column appends its caption to the values in key order |
| Mappings.PutIgnoresCaptionsInUse | client/pages/CSVMappingPrototype.tsx:43-48 | Setting a new column adds one more use of its caption, whatever the record already holds, so two columns can share a caption |
| Mappings.RemoveGet | client/pages/CSVMappingPrototype.tsx:50-56 | After deleting a column it has no caption, and every other column reads what it did |
| Mappings.RemoveKeys | client/pages/CSVMappingPrototype.tsx:50-56 | Deleting a column leaves the other keys in their old order, and deleting an absent key changes nothing |
| Mappings.RemoveKeepsWellFormed | client/pages/CSVMappingPrototype.tsx:50-56 | Deleting keeps the record free of repeated keys |
| Mappings.RemoveSpec | client/pages/CSVMappingPrototype.tsx:50-56 | Deleting a column keeps the record free of repeated keys, leaves the column without a caption and every other lookup as it was, and leaves the other keys in their old order |
| Mappings.PutThenRemove | client/pages/CSVMappingPrototype.tsx:43-56 | Adding a new column and deleting it again restores the record |
| PrototypePage.CsvColumns | client/pages/CSVMappingPrototype.tsx:22 | The header row of the grid, or no columns before an upload |
| PrototypePage.InitialCaptions | client/pages/CSVMappingPrototype.tsx:30-33 | The proposed captions are a prefix of the suggested set, as long as the header, at most six, and at most the suggested set's length; not empty for a non-empty header |
| PrototypePage.TabProgress | client/pages/CSVMappingPrototype.tsx:63-77 | Each tab flag holds exactly when its step has data; completion needs an upload, captions and as many keys as header columns |
| PrototypePage.CompleteIffEveryColumnHasKey | client/pages/CSVMappingPrototype.tsx:63-77 | With distinct header names and keys drawn from the header, completion holds exactly when every column is a key |
| PrototypePage.CompleteImpliesEarlierSteps | client/pages/CSVMappingPrototype.tsx:72-75 | Completion implies the upload and caption flags |
| PrototypePage.Session.constructor | client/pages/CSVMappingPrototype.tsx:16-20 | The page starts with no grid, no file name, no captions, an empty mapping and the upload tab |
| PrototypePage.Session.HandleFileUpload | client/pages/CSVMappingPrototype.tsx:24-37 | Stores the grid and name and clears the mapping. For a grid with a header it proposes captions only when there were none and moves to the captions tab; an empty grid stops after the first three updates |
| PrototypePage.Session.LoadSampleData | client/pages/CSVMappingPrototype.tsx:58-61 | Loading a bundled dataset is an upload that always completes and lands on the captions tab |
| PrototypePage.Session.HandleCaptionsChange | client/pages/CSVMappingPrototype.tsx:39-41 | Replaces the caption list and nothing else |
| PrototypePage.Session.HandleMappingUpdate | client/pages/CSVMappingPrototype.tsx:43-48 | The column reads the caption, other columns are unchanged, a new column is appended to the key order, and the record keeps no repeated keys |
| PrototypePage.Session.HandleMappingRemove | client/pages/CSVMappingPrototype.tsx:50-56 | The column is no longer a key, the other keys keep their order and their captions, and removing an unmapped column changes nothing |
| PrototypePage.Session.SetActiveTab | client/pages/CSVMappingPrototype.tsx:123 | Switches the tab and nothing else, keeping the record free of repeated keys |
| PrototypePage.SamplesHaveHeaders | client/pages/CSVMappingPrototype.tsx:58-61 | Every bundled dataset has a header row, so loading it proposes at least one caption |
| MappingDisplay.UnmappedColumns | client/components/mapping-display.tsx:25 | The columns without a non-empty caption, in header order; empty exactly when every column is mapped |
| MappingDisplay.UnmappedColumnsCount | client/components/mapping-display.tsx:25 | Each unmapped column is listed as often as the header has it, and no mapped column is listed |
| MappingDisplay.UnmappedColumnsHead | client/components/mapping-display.tsx:25 | The first unmapped column listed is the earliest header column without a caption |
| MappingDisplay.UnmappedColumnsShrink | client/components/mapping-display.tsx:25 | Mapping more columns never lengthens the unmapped list, and mapping one of its columns shortens it |
| MappingDisplay.AvailableCaptions | client/components/mapping-display.tsx:26-27 | The captions no column uses, in list order; empty exactly when every caption is used |
| MappingDisplay.AvailableCaptionsCount | client/components/mapping-display.tsx:26-27 | Each free caption is listed as often as the caption list has it, and no used caption is listed |
| MappingDisplay.IndexOf | client/components/mapping-display.tsx:30 | -1 exactly when the column is absent, otherwise its first position |
| MappingDisplay.PresentValues | client/components/mapping-display.tsx:33-36 | Only non-blank cells of the column, each taken from some row that has that cell |
| MappingDisplay.PresentValuesComplete | client/components/mapping-display.tsx:33-36 | Every non-blank cell of the column is kept |
| MappingDisplay.PresentValuesInOrder | client/components/mapping-display.tsx:33-36 | The kept cells appear in row order: they are a subsequence of the column's cells |
| MappingDisplay.PresentValuesCount | client/components/mapping-display.tsx:33-36 | Each non-blank cell value is kept as often as the column holds it, and no blank value is kept |
| MappingDisplay.PreviewRows | client/components/mapping-display.tsx:34 | The data rows 1 to `maxItems` of the file, as many as exist |
| MappingDisplay.PreviewRowsFilter | client/components/mapping-display.tsx:33-36 | Every value kept from the preview rows is a cell of the column in data rows 1 to `maxItems` of the file, and every non-blank such cell is kept |
| MappingDisplay.ColumnPreview | client/components/mapping-display.tsx:29-37 | Nothing for an unknown column or a file without data rows. Otherwise at most `maxItems` values, each non-blank and from data rows 1 to `maxItems` at the column's position; every non-blank cell of those rows is included, as often as it occurs and in row order |
| MappingDisplay.PreviewOfFullColumn | client/components/mapping-display.tsx:33-36 | When every row has a non-blank cell in the column, the filter keeps them all, in row order |
| MappingDisplay.GetMappingStatus | client/components/mapping-display.tsx:39-47 | The badge is "no CSV" exactly without columns, "no mappings" exactly with columns but an empty record, "all mapped" exactly when every column has a caption, and otherwise counts keys against columns |
| MappingDisplay.PreviewCell | client/components/mapping-display.tsx:228 | The row's value when it is present and non-empty, and a dash otherwise |
| MappingDisplay.InheritedNameReadsAsMapped | client/components/mapping-display.tsx:25 | For the header `constructor, id` with only `id` mapped, no column is listed as unmapped and the badge says every column is mapped |
| MappingDisplay.PreviewTableOf | client/components/mapping-display.tsx:214-231 | The table is shown exactly when there is a key and a data row. Its header is the captions in key order, it has at most three data rows, and each cell reads the mapped column's position |
| AiChat.FindRelated | client/components/ai-chat.tsx:63-68 | The first available caption that contains the lower-cased column name or is contained in it |
| AiChat.BestCaption | client/components/ai-chat.tsx:63-68 | The related caption if a non-empty one exists, otherwise the first available caption |
| AiChat.FindMentioned | client/components/ai-chat.tsx:103-108 | The first name whose lower-cased form occurs in the message |
| AiChat.GenerateResponse | client/components/ai-chat.tsx:46-141 | A reply carries a suggestion exactly for the three suggesting branches; a suggested pair is always a real column and a listed caption, with confidence 85, 95 or 75 |
| AiChat.UnmapAsksToMap | client/components/ai-chat.tsx:51-55 | Any message containing "unmap" also matches the "map" rule, so the removal branch is unreachable for it |
| AiChat.UnmapTakesMappingBranch | client/components/ai-chat.tsx:51-90 | A message containing "unmap" gets a mapping-branch reply, never the removal offer |
| AiChat.MappingBranchSuggestion | client/components/ai-chat.tsx:56-75 | With an unmapped column and a free caption, a mapping request suggests the first unmapped column with `BestCaption` of the free captions, at 85 |
| AiChat.AllMappedComesFirst | client/components/ai-chat.tsx:76-78 | A mapping request with every column mapped reports that, whatever the captions |
| AiChat.CaptionsUsedUp | client/components/ai-chat.tsx:79-82 | A mapping request with unmapped columns but no free caption says all captions are used |
| AiChat.StatusReport | client/components/ai-chat.tsx:97-100 | A status request reports the key count, the column count and the unmapped count |
| AiChat.NoSuggestionOutsideMapping | client/components/ai-chat.tsx:83-100 | Help, removal and status replies carry no suggestion |
| AiChat.MentionedPair | client/components/ai-chat.tsx:103-116 | With no keyword rule, a message naming a column and a caption proposes that pair at 95 |
| AiChat.MentionedColumnOnly | client/components/ai-chat.tsx:117-136 | A message naming only a column proposes `BestCaption` of the free captions for it at 75, or says no caption fits when none is free |
| AiChat.ApplyingSuggestionMakesProgress | client/components/ai-chat.tsx:56-75 | Applying a suggested pair for an unmapped column maps it and shortens the unmapped list |
| AiChat.Chat.constructor | client/components/ai-chat.tsx:36-37 | The chat starts with no messages and an empty input box |
| AiChat.Chat.SetInputValue | client/components/ai-chat.tsx:318 | Typing replaces the input text and nothing else |
| AiChat.Chat.SendMessage | client/components/ai-chat.tsx:156-172 | A blank input sends nothing; otherwise the user's text and the generated reply are appended, in that order, and the box is cleared |
| AiChat.Chat.ApplyMapping | client/components/ai-chat.tsx:187-196 | Updates the page's mapping as the page handler does, and appends a confirmation naming the pair |
| AiChat.Chat.ShowWelcome | client/components/ai-chat.tsx:199-208 | With no messages and at least one column, the chat becomes the single welcome message; otherwise nothing changes |
| TableCaptions.AfterAdd | client/components/table-captions.tsx:18-23 | Appends the trimmed text when it is not blank and not listed, otherwise changes nothing; keeps a list without repeats, and a list of clean captions, as it is |
| TableCaptions.AddTwiceIsAddOnce | client/components/table-captions.tsx:18-23 | Adding the same text twice is adding it once |
| TableCaptions.RemoveAt | client/components/table-captions.tsx:25-28 | Drops the entry at an index in range, and changes nothing for one out of range |
| TableCaptions.RemoveAtSpec | client/components/table-captions.tsx:25-28 | Removal shortens the list by one, removes exactly one copy of that caption, and keeps a list without repeats without it |
| TableCaptions.StoreAt | client/components/table-captions.tsx:37-38 | The value lands at the index, other entries stay, and positions skipped past the end read as empty |
| TableCaptions.SaveUnchangedIsNoOp | client/components/table-captions.tsx:30-43 | Saving a clean caption's own text leaves the list as it was |
| TableCaptions.SaveCanDuplicate | client/components/table-captions.tsx:35-43 | Saving does not check the other entries, so an edit can make a list without repeats repeat a caption |
| TableCaptions.CaptionEditor.constructor | client/components/table-captions.tsx:14-16 | Nothing typed and nothing being edited |
| TableCaptions.CaptionEditor.SetNewCaption | client/components/table-captions.tsx:78 | Typing in the new-caption box replaces its text only |
| TableCaptions.CaptionEditor.SetEditValue | client/components/table-captions.tsx:109 | Typing in the edit box replaces its text only |
| TableCaptions.CaptionEditor.AddCaption | client/components/table-captions.tsx:18-23 | Adds exactly when the trimmed text is non-blank and new, then clears the box; otherwise nothing changes |
| TableCaptions.CaptionEditor.RemoveCaption | client/components/table-captions.tsx:25-28 | The list loses the entry at the index; the edit state is untouched |
| TableCaptions.CaptionEditor.StartEditing | client/components/table-captions.tsx:30-33 | Opens the entry for editing, pre-filled with its text |
| TableCaptions.CaptionEditor.SaveEdit | client/components/table-captions.tsx:35-43 | Saves exactly when an entry is open and the text is not blank: stores the trimmed text and closes the edit; otherwise nothing changes |
| TableCaptions.CaptionEditor.CancelEdit | client/components/table-captions.tsx:45-48 | Closes the edit and leaves the list alone |
| TableCaptions.CaptionEditor.HandleEditKey | client/components/table-captions.tsx:56-62 | Enter saves, Escape cancels, any other key changes nothing |
| TableCaptions.CaptionEditor.HandleNewCaptionKey | client/components/table-captions.tsx:50-54 | Enter adds, clearing the box when the list grew and keeping it otherwise; any other key changes nothing |
| TableCaptions.CaptionEditor.QuickAdd | client/components/table-captions.tsx:160-168 | A quick-add button appends its caption unless it is listed, keeping a list without repeats |
| TableCaptions.QuickSuggestionsAreClean | client/components/table-captions.tsx:160 | The quick-add captions are distinct and already trimmed, non-blank captions |
| MockData.Cascade | client/lib/mock-data.ts:68-78 | The chosen list is always one of the five bundled caption sets |
| MockData.SuggestedCaptionsFor | client/lib/mock-data.ts:64-79 | The suggestion for any header is one of the five bundled caption sets; which one is settled by the per-column lemma below |
| MockData.KeywordHitsOneColumn | client/lib/mock-data.ts:66-74 | A keyword without a space occurs in the joined header exactly when it occurs in one lower-cased column name |
| MockData.SuggestionIsPerColumn | client/lib/mock-data.ts:64-79 | The suggested set equals the one computed from per-column keyword hits |
| MockData.SuggestionIgnoresColumnOrder | client/lib/mock-data.ts:66 | Headers holding the same column names in any order get the same caption set |
| MockData.SuggestionIgnoresCase | client/lib/mock-data.ts:66 | Headers that agree after lower-casing get the same caption set |
| MockData.LowerJoin | client/lib/mock-data.ts:66 | Lower-casing the joined header equals joining the lower-cased names |
| MockData.JoinContains | client/lib/mock-data.ts:66 | A keyword found in one column name is found in the joined header |
| MockData.ContainsAcrossSpace | client/lib/mock-data.ts:66 | A keyword without a space that occurs in `x + " " + y` occurs in `x` or in `y` |
| MockData.SalesSampleSuggestsCustomerCaptions | client/lib/mock-data.ts:29 | The sales sample's header names a customer column, so it gets the customer caption set rather than the sales set |
| MockData.SamplesAreRectangular | client/lib/mock-data.ts:1-48 | Every row of every bundled dataset is as wide as its header |

## Left out

- Reading the file: `FileReader`, drag and drop, the `.csv` extension and MIME check, and the alert for other files (client/components/csv-upload.tsx:42-91). This is browser I/O; the model starts from the text.
- The chat's typing delay (`setTimeout`), the `isTyping` flag, the message ids and timestamps (`Date.now`, `new Date`) and the scroll effect. These are clock and DOM behaviour.
- Messages that arrive while a reply is still pending are not modelled. `SendMessage` appends the user's message and the reply in one step.
- `getRandomMockData` is left out because it depends on `Math.random`.
- Confidences are the integers 85, 95 and 75 standing for the source's 0.85, 0.95 and 0.75, because floating point is not modelled.
- `Text.Trim` and `Text.Lower` treat only ASCII whitespace and ASCII letters. The source's `trim` and `toLowerCase` follow Unicode.
- The mapping record keeps keys in insertion order. The JavaScript rule that integer-like keys are listed first, in numeric order, is not modelled.
- The JSX rendering, styling and icons of every component are not modelled, except for the derived views listed above.
- client/pages/DataImportMap.tsx, client/components/sidebar.tsx, client/components/top-bar.tsx and client/components/ui/upload-icon.tsx are not part of this model. These are page chrome; the delimiter radio in the page never reaches the parser.
- TableCaptions.StoreAt: storing past the end of the list gives a sparse array in the source. The model fills the holes with empty strings.
- PrototypePage.Session.HandleFileUpload: for an empty grid the source throws after queuing the first three state updates. The model returns `completed == false` with those updates applied and the captions and tab unchanged.
- AiChat.NoSuggestionOutsideMapping: states only that those replies carry no suggestion, not which reply kind each branch gives. `AiChat.StatusReport` states the status reply in full.
- Enter with Shift in the chat box, and the disabled state of the send button, are not modelled. A blank message is refused either way.
- The uploaded-file badge of the upload component is not modelled; the page's `fileName` is.
