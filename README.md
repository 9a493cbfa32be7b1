# WIP dashboards: the grid-consistency engine, in Dafny

This project models the client-side logic behind the two Work-In-Progress
dashboards of the TSI WIP front end. The read-only `WIPDashboard` and the
admin-editable `EditableWIPDashboard` show one row per job snapshot in a
24-column grid. Comments ("explanations") can be attached to any cell.

The model covers:

- **Column schema.** `getDynamicColumns` gives 24 columns in seven sections.
  Four labels carry the current and prior month names.
- **Section header.** The `groupedColumns` reduce and the header cells it
  produces.
- **Labels.** The section labels and the field labels.
- **Editable cell.** `EditableTableCell` is a state machine over `isEditing`,
  `editValue` and `isSaving`. It also holds the rule that cleans a draft on
  save and the rules for when a value shows as blank.
- **Explanation index.** Row id to that row's explanations, queried by first
  match on the field name.
- **Coordinator.** A class holding `rows`, `totals`, `explanations`,
  `loading`, `error`, `reportDate` and `commentModal`, with the handlers
  `loadWIPData`, `handleSaveCell`, `handleAddComment` and
  `handleSaveComment`.
- **Comment dialog.** A draft reset on open, a save gated on the trimmed
  draft, and the keyboard shortcuts.
- **Helpers.** The author-initials helper, and the file-name step of the
  Excel export.

Server calls and the per-row explanation fetches are inputs to the model. Each
is either the value the call resolved to (`Ok`) or its rejection (`Err`).
Dates are `(year, month, day)` triples. JavaScript's `setMonth` is reproduced
exactly, including day overflow.

Files, one module each:

| file | module | covers |
|---|---|---|
| wrappers.dfy | Wrappers | `Option`, `Outcome` |
| calendar.dfy | Calendar | dates, `setMonth`, month names |
| fields.dfy | Fields | the 24 grid fields, their keys, cell values |
| schema.dfy | Schema | `getDynamicColumns` |
| grouping.dfy | Grouping | `groupedColumns` and header spans |
| labels.dfy | Labels | `getSectionLabel`, `FIELD_LABELS` |
| annotations.dfy | Annotations | explanation index and lookups, author display |
| cell.dfy | Cells | `EditableTableCell`, `TableCell`, value formatting rules |
| modal.dfy | Modal | `CommentModal` |
| initials.dfy | Initials | `getUserInitials` |
| filename.dfy | ExportFilename | the Content-Disposition step of `downloadExcel` |
| dashboard.dfy | Dashboard | the two dashboards' state and handlers |

The two dashboards share one class, `Dashboard.WipDashboard`. Its `kind` is
`ReadOnly` or `Editable(isAdmin)`, and it decides:

- which cell component is drawn;
- whether `handleSaveCell` exists;
- which text the dialog's field label shows.

The code as written for the prior-month labels is modelled beside a
corrected version (see Findings).

## Model

| member | source | states |
|---|---|---|
| Calendar.SetMonth | src/components/EditableWIPDashboard.tsx:13-14 | `setMonth` yields a valid date; an in-range month index that holds the day just moves the month |
| Calendar.SetMonthBack | src/components/EditableWIPDashboard.tsx:13-14 | `setMonth(getMonth() - 1)` keeps the day: the same day of the previous month when that month has it, else the day overflows back into the current month |
| Calendar.PriorDateAsWritten | src/components/EditableWIPDashboard.tsx:13-14 | the as-written prior date is valid; it is the same day of the previous month when that month has the day, else it falls back into the current month; January goes to December of the previous year |
| Calendar.PriorDateAsWrittenMonth | src/components/EditableWIPDashboard.tsx:13-14 | the as-written prior date lies in the previous month exactly when that month is long enough for the day |
| Calendar.MonthNamesDistinct | src/components/EditableWIPDashboard.tsx:16-17 | the twelve en-US month names are pairwise distinct |
| Calendar.MonthName | src/components/EditableWIPDashboard.tsx:16-17 | one of the twelve en-US long month names, and no other month's |
| Calendar.PriorOfJanuary | src/components/WIPDashboard.tsx:14-18 | a January report date gives December of the previous year |
| Calendar.MonthNameInjective | src/components/EditableWIPDashboard.tsx:16-17 | distinct months have distinct long names |
| Calendar.PriorMonthNameAsWritten | src/components/EditableWIPDashboard.tsx:13-17 | as written, the prior label names the previous month when that month holds the day, and the current month otherwise |
| Calendar.PriorMonthName | src/components/EditableWIPDashboard.tsx:13-17 | the intended prior-month name never equals the current month's |
| Calendar.PriorMonthNameIsPrevious | src/components/EditableWIPDashboard.tsx:13-17 | the intended prior month is December for January, else the month before |
| Calendar.PriorMonthNameAsWrittenAgrees | src/components/EditableWIPDashboard.tsx:13-17 | as written and intended agree exactly when the previous month holds the day |
| Calendar.PriorMonthNameAsWrittenRepeats | src/components/EditableWIPDashboard.tsx:13-17 | as written, the prior-month name repeats the current month exactly when the previous month is too short |
| Calendar.PriorMonthNameAsWrittenCounterexamples | src/components/WIPDashboard.tsx:14-18 | 2025-03-31 and 2025-03-30 label the prior month "March"; 2025-07-31 labels it "July" where "June" is meant |
| Schema.SystemColumns | src/components/WIPDashboard.tsx:22-23 | two frozen system columns |
| Schema.ContractColumns | src/components/WIPDashboard.tsx:26-30 | five unfrozen contract columns |
| Schema.CostColumns | src/components/WIPDashboard.tsx:33-37 | five unfrozen cost columns |
| Schema.GaapColumns | src/components/WIPDashboard.tsx:40-43 | four unfrozen GAAP columns |
| Schema.MarginColumns | src/components/WIPDashboard.tsx:46-49 | four unfrozen margin columns |
| Schema.BillingColumns | src/components/WIPDashboard.tsx:52 | one unfrozen billing column |
| Schema.AdjustmentColumns | src/components/WIPDashboard.tsx:55-57 | three unfrozen adjustment columns |
| Schema.DataColumns | src/components/EditableWIPDashboard.tsx:22-43 | 22 data columns, none frozen or in the system section, in section order |
| Schema.ColumnsFor | src/components/EditableWIPDashboard.tsx:19-44 | 24 columns; frozen exactly for the first two, which are the only system columns (`job_number`, `project_name`) |
| Schema.OtherColumnsConstant | src/components/EditableWIPDashboard.tsx:19-44 | every column except the six month-labelled ones at 4/5, 9/10 and 16/17 is the same for every pair of month names, so for every report date |
| Schema.MonthLabels | src/components/EditableWIPDashboard.tsx:24-37 | the six labels at positions 4/5, 9/10 and 16/17 are "<current> …" and "<prior> …" for Contract, Final Cost and Job Margin |
| Schema.DynamicColumns | src/components/EditableWIPDashboard.tsx:11-45 | as written: 24 columns; positions 4/5, 9/10 and 16/17 carry the current month's name and the as-written prior name; each prior label equals its current one exactly when the previous month is shorter than the report day |
| Schema.DynamicColumnsCorrected | src/components/WIPDashboard.tsx:12-59 | corrected: 24 columns; positions 4/5, 9/10 and 16/17 are labelled with the current month's name and the previous calendar month's name, so the prior labels never repeat the current ones |
| Schema.CorrectedPriorLabel | src/components/WIPDashboard.tsx:14-29 | the corrected prior contract label is December's for January and the previous month's otherwise |
| Schema.CorrectedLabelJuly | src/components/WIPDashboard.tsx:14-29 | 2025-07-31 gives "June Contract" |
| Schema.CorrectedLabelMarch | src/components/WIPDashboard.tsx:14-29 | 2025-03-31 gives "February Contract" |
| Schema.CorrectedLabelJanuary | src/components/WIPDashboard.tsx:14-29 | 2025-01-31 gives "December Contract" |
| Schema.SuffixCancels | src/components/EditableWIPDashboard.tsx:24-25 | distinct month names give distinct labels |
| Grouping.IndexOfSection | src/components/WIPDashboard.tsx:347 | finds the group of a section, or reports that it has none |
| Grouping.AddColumn | src/components/WIPDashboard.tsx:347-349 | one step of the reduce adds one column to the spans; a new section is appended to the section list, a known one leaves it unchanged |
| Grouping.GroupColumns | src/components/WIPDashboard.tsx:346-350 | the reduce lists the sections in first-appearance order, and the header spans add up to the column count |
| Grouping.ColumnsIn | src/components/WIPDashboard.tsx:346-350 | the columns of one section, in order |
| Grouping.GroupColumnsCorrect | src/components/WIPDashboard.tsx:346-350 | the reduce yields the sections in first-appearance order, each with exactly its own columns in order |
| Grouping.DistinctNames | src/components/WIPDashboard.tsx:346-350 | each section appears in one group only |
| Grouping.FirstAppearancesCover | src/components/WIPDashboard.tsx:346-350 | every column's section has a group |
| Grouping.TotalSpanAppend | src/components/WIPDashboard.tsx:428-431 | span totals add over concatenation |
| Grouping.TotalSpanUpdate | src/components/WIPDashboard.tsx:348 | replacing one group changes the total span by the difference of the two groups' sizes |
| Grouping.SchemaHeaderSpans | src/components/EditableWIPDashboard.tsx:392-396 | the schema groups as system, contract, cost, gaap, margin, billing, adjustments with spans 2, 5, 5, 4, 4, 1, 3 |
| Labels.SectionLabel | src/components/WIPDashboard.tsx:72-83 | the dated or undated projects label for system; a fixed label per known section; the name itself otherwise |
| Labels.SectionLabelFallback | src/components/WIPDashboard.tsx:82 | the label is the section's own name exactly for unknown sections |
| Labels.FieldLabel | src/components/WIPDashboard.tsx:107-131 | the table's label, or the raw key when the field has none |
| Labels.FieldLabelFallback | src/components/WIPDashboard.tsx:513 | only `job_number` and `project_name` fall back to their key |
| Annotations.RowExplanations | src/components/EditableWIPDashboard.tsx:382 | a row's list, or the empty list when the row has no entry |
| Annotations.FirstIndexOf | src/components/EditableWIPDashboard.tsx:383 | the position of the first explanation for the field, none before it |
| Annotations.Find | src/components/EditableWIPDashboard.tsx:383 | some explanation is found exactly when one has the field; it is the first such in list order |
| Annotations.FindIsHeadOfForField | src/components/EditableWIPDashboard.tsx:383 | `find` is the head of the filtered list |
| Annotations.FindSkipsOtherFields | src/components/EditableWIPDashboard.tsx:383 | explanations for other fields in front do not change what is found |
| Annotations.ForFieldSkips | src/components/EditableWIPDashboard.tsx:383 | the filter ignores a prefix with other fields |
| Annotations.CommentExplanation | src/components/EditableWIPDashboard.tsx:381-384 | a found explanation is in that row's list and has the field's key, with none before it; nothing is found exactly when no explanation of the row has the key; no entry means none |
| Annotations.Comment | src/components/EditableWIPDashboard.tsx:386-389 | the text of exactly that explanation |
| Annotations.AuthorName | src/components/CommentModal.tsx:86-89 | "first last" when both are non-empty, else the account name |
| Annotations.AuthorInitials | src/components/CommentModal.tsx:78-82 | the author badge: at most two upper-case characters, by first and last name, first name alone, the account name before `@`, or "UN" |
| Annotations.CellMarks | src/components/EditableWIPDashboard.tsx:202-231 | badge and preview exactly when the explanation's text is non-empty; button title follows |
| Initials.UpperChar | src/components/userInitials.tsx:15 | each lower-case ASCII and Latin-1 letter maps to its capital 32 code points lower, µ to Greek capital mu, ÿ to Ÿ; every other character is unchanged |
| Initials.Upper | src/components/userInitials.tsx:15 | upper-cases a string character by character, keeping its length |
| Initials.UpperCharIdempotent | src/components/userInitials.tsx:15 | upper-casing twice equals upper-casing once |
| Initials.BeforeAt | src/components/userInitials.tsx:24 | the longest `@`-free prefix |
| Initials.Take | src/components/userInitials.tsx:25 | the first n characters, or all |
| Initials.UserInitials | src/components/userInitials.tsx:13-29 | at most two characters; the four branches of the fallback chain |
| Initials.InitialsAreUpperCase | src/components/userInitials.tsx:15-25 | the result is already upper case |
| Initials.LastNameAloneIgnored | src/components/userInitials.tsx:18-20 | without a first name the last name makes no difference |
| Initials.EmptyMeansAbsent | src/components/userInitials.tsx:14-23 | an empty string is the same as a missing one, in every argument |
| Initials.AtUsernameYieldsEmpty | src/components/userInitials.tsx:23-25 | a username starting with `@` yields "", not "UN" |
| Initials.BeforeAtOfAddress | src/components/userInitials.tsx:24 | the part before `@` of `user@rest` is `user` |
| Initials.UsernameInitials | src/components/userInitials.tsx:22-26 | an address gives the upper-cased first two characters of its local part |
| Cells.IdentityNotEditable | src/components/EditableWIPDashboard.tsx:103-106 | identity fields are never editable |
| Cells.IsEditable | src/components/EditableWIPDashboard.tsx:103-106 | a non-admin edits nothing; identity fields are never editable; an admin edits every other field except the prior-contract variance |
| Cells.StripNumberSymbols | src/components/EditableWIPDashboard.tsx:122 | stripping never lengthens the draft |
| Cells.StripContents | src/components/EditableWIPDashboard.tsx:122 | a character survives exactly when it was in the draft and is not `$`, `,` or `%` |
| Cells.StripAppend | src/components/EditableWIPDashboard.tsx:122 | stripping distributes over concatenation |
| Cells.StripKeepsPlainText | src/components/EditableWIPDashboard.tsx:122 | a draft without symbols is unchanged |
| Cells.StripIdempotent | src/components/EditableWIPDashboard.tsx:122 | stripping twice is stripping once |
| Cells.ParseDraft | src/components/EditableWIPDashboard.tsx:117-124 | currency/percentage: null exactly when only symbols were typed, else the cleaned text is parsed; other types: the raw draft |
| Cells.ParseDollarAmount | src/components/EditableWIPDashboard.tsx:122-123 | "$12,345" is parsed from "12345"; "$,%" saves null |
| Cells.DraftOf | src/components/EditableWIPDashboard.tsx:110 | the value's string, or "" for a value that is absent |
| Cells.FormatValue | src/components/EditableWIPDashboard.tsx:79-98 | currency blank exactly for null or 0; percentage blank exactly for null; others blank exactly when falsy |
| Cells.ZeroDisplay | src/components/EditableWIPDashboard.tsx:80-91 | zero shows as a percentage and is blank as currency |
| Cells.EditableView | src/components/EditableWIPDashboard.tsx:149-231 | identity fields plain; an editor exactly while editing, Save enabled exactly when not saving; an edit icon exactly for editable cells |
| Cells.ReadOnlyView | src/components/WIPDashboard.tsx:143-193 | never an editor, never an edit icon |
| Cells.ReadOnlyIsViewerAtRest | src/components/WIPDashboard.tsx:143-193 | a read-only cell equals an editable cell at rest for a non-admin |
| Cells.EditableCell.constructor | src/components/EditableWIPDashboard.tsx:75-77 | a new cell holds its props, not editing, with an empty draft and no save in flight |
| Cells.EditableCell.View | src/components/EditableWIPDashboard.tsx:149-231 | the cell renders as `EditableView` of its state, and a valid cell shows an editor only when it is editable |
| Cells.EditableCell.Edit | src/components/EditableWIPDashboard.tsx:108-112 | an editable cell enters edit mode with the value's draft; a non-editable one changes nothing |
| Cells.EditableCell.Change | src/components/EditableWIPDashboard.tsx:164 | a keystroke replaces the draft only |
| Cells.EditableCell.BeginSave | src/components/EditableWIPDashboard.tsx:114-126 | from edit mode, sets saving and sends the parsed draft |
| Cells.EditableCell.FinishSave | src/components/EditableWIPDashboard.tsx:127-133 | success leaves edit mode; failure stays in it with the draft kept and alerts; saving ends either way |
| Cells.EditableCell.ClickSave | src/components/EditableWIPDashboard.tsx:171-173 | the Save button, drawn only in edit mode, is ignored while saving |
| Cells.EditableCell.Cancel | src/components/EditableWIPDashboard.tsx:136-139 | leaves edit mode and clears the draft; nothing is sent |
| Cells.EditableCell.KeyPress | src/components/EditableWIPDashboard.tsx:141-147 | in the edit input, Enter saves even while saving; Escape cancels; other keys do nothing |
| Cells.EditableCell.Remount | src/components/EditableWIPDashboard.tsx:75-77 | a cell drawn again after the loading screen holds the new value and explanation, with no edit mode, an empty draft and no save in flight |
| Cells.NonEditableNeverEdits | src/components/EditableWIPDashboard.tsx:108-109 | a non-editable cell never shows an editor |
| Modal.LeadingSpaces | src/components/CommentModal.tsx:40 | the count of leading white space is within the string and stops at a non-space |
| Modal.TrailingSpaces | src/components/CommentModal.tsx:40 | the count of trailing white space is within the string and stops at a non-space |
| Modal.LeadingAreSpaces | src/components/CommentModal.tsx:40 | every character of the counted leading run is white space |
| Modal.TrailingAreSpaces | src/components/CommentModal.tsx:40 | every character of the counted trailing run is white space |
| Modal.TrimStart | src/components/CommentModal.tsx:40 | the result is empty or starts with a non-space |
| Modal.TrimEnd | src/components/CommentModal.tsx:40 | the result is empty or ends with a non-space |
| Modal.Trim | src/components/CommentModal.tsx:40 | the trimmed draft is no longer than the draft, and is empty or starts and ends with a non-space |
| Modal.TrimIsSlice | src/components/CommentModal.tsx:40 | the trimmed draft is the slice of the draft that starts after its leading white space |
| Modal.TrimShape | src/components/CommentModal.tsx:40 | the trimmed draft is a slice with only white space outside it |
| Modal.TrimEmptyIffAllSpace | src/components/CommentModal.tsx:40 | the trimmed draft is empty exactly when every character is white space |
| Modal.CanSave | src/components/CommentModal.tsx:40 | the save gate opens exactly when the draft holds a character that is not white space |
| Modal.DraftFrom | src/components/CommentModal.tsx:29 | the existing comment, or "" |
| Modal.CommentModal.constructor | src/components/CommentModal.tsx:29 | the draft starts as the existing comment, or "" |
| Modal.CommentModal.SetProps | src/components/CommentModal.tsx:31-35 | the draft is reset when the dialog is open and `isOpen` or the comment changed; kept otherwise |
| Modal.CommentModal.Change | src/components/CommentModal.tsx:111 | typing replaces the draft |
| Modal.CommentModal.HandleSave | src/components/CommentModal.tsx:39-44 | a non-blank draft is saved untrimmed and the dialog closes; otherwise nothing |
| Modal.CommentModal.HandleKeyDown | src/components/CommentModal.tsx:46-53 | Escape closes without saving; Ctrl/Meta+Enter is Save; other keys nothing |
| Modal.CommentModal.Render | src/components/CommentModal.tsx:37-133 | nothing while closed; the author block exactly with an explanation; Save enabled exactly for a non-blank draft |
| Modal.ButtonMatchesHandler | src/components/CommentModal.tsx:128-129 | the Save button is enabled exactly when the handler saves, and saving closes |
| Modal.BlankDraftNeverSaved | src/components/CommentModal.tsx:39-53 | a white-space draft never reaches `onSave`, by button or keyboard |
| ExportFilename.NonQuoteRun | src/services/wipService.ts:143 | the maximal quote-free run at a position |
| ExportFilename.MatchAt | src/services/wipService.ts:143 | the pattern matches at a position exactly when the key is there and a non-empty quote-free run follows |
| ExportFilename.FirstMatchFrom | src/services/wipService.ts:143 | the leftmost matching position, no match before it |
| ExportFilename.DownloadName | src/services/wipService.ts:139-145 | the name is never empty and never contains `"` |
| ExportFilename.NoHeaderGivesDefault | src/services/wipService.ts:140-141 | no header gives "TSI_WIP_Report.xlsx" |
| ExportFilename.LeftmostMatchWins | src/services/wipService.ts:143-144 | the leftmost match gives the name |
| ExportFilename.NoMatchKeepsDefault | src/services/wipService.ts:142-144 | no matching position keeps the default |
| ExportFilename.NoKeyKeepsDefault | src/services/wipService.ts:142-144 | a header without `filename=` keeps the default |
| ExportFilename.QuotedNameRoundTrip | src/services/wipService.ts:143 | `filename="X"` yields exactly X |
| ExportFilename.UnquotedNameRunsToEnd | src/services/wipService.ts:143 | an unquoted value runs to the end of the header, trailing parameters included |
| ExportFilename.ExtendedFormAloneKeepsDefault | src/services/wipService.ts:143 | `filename*=` alone keeps the default |
| ExportFilename.ExtendedFormExample | src/services/wipService.ts:143 | `attachment; filename*=UTF-8''report.xlsx` gives the default |
| Dashboard.CellValue | src/components/WIPDashboard.tsx:482-486 | `job[field]`: the job number, a present value, or undefined |
| Dashboard.MergeRow | src/components/EditableWIPDashboard.tsx:319 | the spread keeps every old property and lets each sent one win |
| Dashboard.MergeRowCell | src/components/EditableWIPDashboard.tsx:319 | a merged cell holds the server's value where one was sent, else the old one |
| Dashboard.MergeRowIdempotent | src/components/EditableWIPDashboard.tsx:319 | merging the same answer twice is merging once |
| Dashboard.ReplaceRows | src/components/EditableWIPDashboard.tsx:317-321 | same row count; rows with that id merged, every other row unchanged |
| Dashboard.ReplaceRowsIdempotent | src/components/EditableWIPDashboard.tsx:317-321 | replaying an answer that keeps the id changes nothing more |
| Dashboard.FirstRow | src/components/WIPDashboard.tsx:284 | the first row with that job number (or id), or none when no row has it |
| Dashboard.BuildExplanationIndex | src/components/EditableWIPDashboard.tsx:293-302 | the loop builds the index of the row-order fold |
| Dashboard.ExplanationIndex | src/components/EditableWIPDashboard.tsx:293-302 | the index has an entry for exactly the ids of rows whose fetch resolved |
| Dashboard.IndexKeys | src/components/EditableWIPDashboard.tsx:294-300 | the index has a key exactly for the ids of rows whose fetch resolved |
| Dashboard.IndexEntry | src/components/EditableWIPDashboard.tsx:297 | a row's entry is its own fetched list unless a later row has the same id |
| Dashboard.RowLookupAfterLoad | src/components/EditableWIPDashboard.tsx:294-300 | with distinct ids, a row's lookup is its fetched list, or empty when the fetch failed |
| Dashboard.NatText | src/components/WIPDashboard.tsx:74 | a non-empty string of digits, "0" exactly for zero |
| Dashboard.LongDate | src/components/WIPDashboard.tsx:74 | the long date starts with the month name and a space |
| Dashboard.HeaderCells | src/components/WIPDashboard.tsx:428-439 | one cell per group, labelled by its section (dated for system), spanning its column count |
| Dashboard.Headers | src/components/EditableWIPDashboard.tsx:498-511 | one header cell per section, in first-appearance order, spanning that section's columns; only the system cell carries the date |
| Dashboard.Titles | src/components/EditableWIPDashboard.tsx:514-531 | one column title per column, in order |
| Dashboard.SevenHeaderCells | src/components/WIPDashboard.tsx:72-83 | the labels of the seven schema sections in order |
| Dashboard.HeaderRow | src/components/EditableWIPDashboard.tsx:499-510 | the header row is the dated projects cell over 2 columns, then the six section labels over 5, 5, 4, 4, 1 and 3 |
| Dashboard.CommentCallFor | src/components/WIPDashboard.tsx:302-320 | no call without a truthy snapshot id; update exactly when the explanation id is truthy; create with the field key otherwise; the untrimmed comment is sent |
| Dashboard.TruthyId | src/components/EditableWIPDashboard.tsx:352-355 | an absent id and 0 are falsy, every other id truthy |
| Dashboard.ZeroCommentIdCreates | src/components/WIPDashboard.tsx:306 | an explanation id of 0 creates, as when there is none |
| Dashboard.IdOf | src/components/WIPDashboard.tsx:297 | the explanation's id exactly when there is one |
| Dashboard.CellFor | src/components/WIPDashboard.tsx:480-494 | plain exactly for identity columns; never an editor at rest; the formatted value and the cell's explanation marks; an edit icon only in the editable dashboard for editable fields |
| Dashboard.GridCells | src/components/EditableWIPDashboard.tsx:537-569 | one cell per row per column |
| Dashboard.WipDashboard.constructor | src/components/EditableWIPDashboard.tsx:242-267 | the dashboard starts loading, with no rows, totals, explanations or error, the report date 2025-07-31 and the dialog closed (the same state as src/components/WIPDashboard.tsx:201-212) |
| Dashboard.WipDashboard.Columns | src/components/WIPDashboard.tsx:209 | 24 columns starting with `job_number` and `project_name`, labelled with the corrected prior month (see Left out) |
| Dashboard.WipDashboard.Load | src/components/EditableWIPDashboard.tsx:275-309 | success: rows and totals from the one response, index rebuilt, error cleared, date replaced and reported only when sent; failure: old rows, totals, index and date kept, error set; loading ends false |
| Dashboard.WipDashboard.SaveCell | src/components/EditableWIPDashboard.tsx:311-329 | a failed update changes nothing and fails the cell; otherwise rows merged by id, then a full reload that sets the report date and reports it to the parent exactly when the response carries one |
| Dashboard.WipDashboard.SaveFromCell | src/components/EditableWIPDashboard.tsx:114-133 | from edit mode: a failed update keeps the dashboard state, the draft and edit mode, and alerts; a successful one leaves the cell as a fresh mount holding its row's new value and explanation, with the reload's rows, totals, index and date, or the failed reload's message; the dialog is untouched |
| Dashboard.WipDashboard.CellAt | src/components/EditableWIPDashboard.tsx:554-565 | the value of the first row with that id and the explanation for the field, exactly when such a row exists |
| Dashboard.WipDashboard.AddComment | src/components/WIPDashboard.tsx:283-300 | unknown job number: no change; else the dialog opens on the first such row with its first explanation for the field, its id and text |
| Dashboard.WipDashboard.CloseModal | src/components/WIPDashboard.tsx:511 | only `isOpen` becomes false |
| Dashboard.WipDashboard.SaveComment | src/components/WIPDashboard.tsx:302-332 | no snapshot id: nothing; success: only that row's entry replaced by the re-fetched list; failure: index kept and error set |
| Dashboard.WipDashboard.SubmitComment | src/components/CommentModal.tsx:39-44 | a non-blank draft is sent with the dialog state as it was, then the dialog closes; the refetched list replaces the row's entry, or a failure sets the comment error; a blank draft changes nothing |
| Dashboard.WipDashboard.DialogProps | src/components/WIPDashboard.tsx:509-517 | the read-only dashboard shows the field label, the editable one the raw key |
| Dashboard.WipDashboard.View | src/components/WIPDashboard.tsx:361-387 | spinner exactly while loading; error screen exactly for a non-empty error; otherwise the grid of the current state, with the admin notice only for admins |
| Dashboard.GridShape | src/components/WIPDashboard.tsx:463-498 | one cell per column in every row; job number and project name plain text; no editor; no edit icon in the read-only dashboard |
| Dashboard.GridCellsShape | src/components/EditableWIPDashboard.tsx:537-569 | the same shape for any 24-column schema led by the identity columns |
| Dashboard.CommentFailureShowsError | src/components/WIPDashboard.tsx:328-331 | a failed comment save switches the view to the error screen |

## Left out

- Networking, storage and the Blob/DOM download. Every server call is an input: `Ok(value)` or `Err(message)`.
- `Intl.NumberFormat`, `toFixed` and `parseFloat`. The display is `CurrencyText`/`PercentText`/`AsIs` of the value, and a save sends `ParseFloatOf(cleaned text)`. Only the blank/null decisions are modelled.
- Parsing `'YYYY-MM-DD'` as UTC and then showing it in local time. Dates are calendar triples read in the date's own zone, so the one-day shift west of UTC is not modelled. The report date from the server is taken as an already-valid date; malformed date strings are not modelled.
- Dashboard.LongDate: only states that the date starts with the month name; numeral formatting is not part of its contract.
- Initials.UpperChar: only Basic Latin and Latin-1 letters are case-mapped. Multi-character expansions (ß to "SS") are not modelled.
- Number values are carried as their decimal text. Zero is "0", so `-0` and other spellings of zero are not distinguished.
- The aggregated totals row component, the change indicator, authentication, session handling, widths and section colours.
- The explanation timestamps in the dialog: locale date formatting.
- Async interleaving. Load and the per-row fetches run in sequence, as the awaited loop does. A cell's save is the two steps `BeginSave` and `FinishSave` around the dashboard's handler.
- Cells in edit mode are not drawn in `View`. Each editable cell's state is its own `Cells.EditableCell` object; the grid shows cells at rest.
- Dashboard.WipDashboard.Load: the loading screen unmounts every cell, but `Load` does not touch cell objects. Only the saving cell is remounted, in `SaveFromCell`. The drafts of other cells open during the reload are not shown to be discarded.
- Dashboard.WipDashboard.Columns: the dashboards' columns use the corrected prior-month name (`Schema.DynamicColumnsCorrected`). The source calls the as-written `getDynamicColumns` (src/components/WIPDashboard.tsx:209, src/components/EditableWIPDashboard.tsx:252). So on an overflow date such as 2025-03-31, `View` titles the prior column "February Contract" where the source shows "March Contract" twice. The as-written schema is `Schema.DynamicColumns`.
- Initials.UserInitials: strings are sequences of Unicode scalar values, while `firstName[0]`, `lastName[0]` and `substring(0, 2)` index UTF-16 code units. For a name starting outside the Basic Multilingual Plane the source takes half a surrogate pair where the model takes the whole character. A username's two-unit prefix can be a single character.
- Quote unescaping and the extended `filename*` parameter of section 4.3 of RFC 6266. This matches the code, which does neither.
- The other `wipService` calls, beyond the file-name step of `downloadExcel`: they are network calls.

## Findings

| source | as written | input that shows it | evidently intended | confidence | as-written member | corrected member |
|---|---|---|---|---|---|---|
| src/components/EditableWIPDashboard.tsx:13-17 (same code at src/components/WIPDashboard.tsx:14-18) | the prior month comes from `setMonth(getMonth() - 1)`, which keeps the day of the month, so a day the previous month lacks overflows into the current month | report date 2025-03-31 (or 2025-03-30): the prior date is March 3 (or 2), so the prior-month labels read "March Contract" beside "March Contract"; at or east of UTC the default 2025-07-31 reads "July" | the previous calendar month ("February", "June") | high, not executed | Calendar.PriorMonthNameAsWrittenCounterexamples | Calendar.PriorMonthName |
