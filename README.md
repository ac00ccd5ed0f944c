# TGIA order wizard — rule engine model

This project models the rule engine of the TGIA next-generation-sequencing
order form (`src/App.js`): a six-step wizard (基本驗證, 基本資訊, 委託內容,
送測樣品, 簽名確認, 預覽提交) in which a customer identifies a sales code,
fills in a profile, picks service categories and service lines, enters a
sample manifest in one of three spreadsheet-like tables, signs, and submits.

The model covers:

- the dependency rules between service categories (ticking 萃取/QC pulls in
  建庫 and 定序; ticking 建庫 pulls in 定序; unticking is blocked while a
  dependant is ticked);
- the classification of the chosen extraction lines as DNA, RNA or mixed, the
  library options that classification leaves, and the step-2 rule that
  enforces it;
- the sequencing-volume total priced from the GB-per-unit table, and the
  expected yield summed from the manifest;
- the service-item editing handlers and the rebuild of the items in
  canonical category order when leaving step 1;
- the three manifest tables: sample-name sanitizing, tab-separated paste
  (with and without a leading serial number), row add/remove/edit, the named
  row count, duplicate-name detection, and import of already-parsed
  workbook rows;
- the e-mail field check, the per-step gate `validateStep`, and the form
  object that moves between steps and stores (or does not store) the sample
  count after each table handler.

Modules: `Seqs` (sequence helpers), `Text` (JavaScript string operations:
`trim`, `split`, `parseInt`, `isNaN` on strings), `Categories`, `Services`,
`Sheets`, `Email` and `Wizard` (the form record, the gates, and the
`OrderForm` class whose methods reassign its `currentStep` and `form`
fields as the React state setters do).

Behaviour of `src/App.js` worth noting: the library Sample Sheet paste never
skips a serial number (`startCol = 0`), while the two other tables do; the library
Sample Sheet cell handler computes the sample count but never stores it;
the step-2 library rule looks only at the first 建庫 item; a paste of zero
non-blank lines leaves the table unchanged even when the start index is past
its end; the step counter is clamped at the number of steps (6), one past
the index of the last step (5).

The `OrderForm` class keeps an invariant, `Valid()`: the step counter is at
most 6, the selected categories are dependency-closed and free of repeats,
there is at least one service item and each has at least one line, and each
of the three tables has at least one row, every row with the columns of its
table. The constructor establishes it and every handler requires and keeps it.

## Model

| member | source | states |
|---|---|---|
| Seqs.RemoveAt | src/App.js:1137 | `filter((_, i) => i !== index)`: drops exactly the element at `index`, keeping the others in order; an index past the end changes nothing |
| Seqs.IndexOf | src/App.js:942 | `indexOf`: the first position holding the value, or the length when it is absent |
| Seqs.Distinct | src/App.js:946 | `[...new Set(xs)]`: the same members, each once |
| Seqs.DistinctInOrder | src/App.js:946 | the distinct members keep the order of their first occurrence |
| Seqs.RemoveKeepingOne | src/App.js:1153-1159 | removal is refused exactly when one element is left; otherwise it is `RemoveAt` |
| Text.TrimStartShape | src/App.js:938 | `trim` drops exactly the leading white space: the result is a suffix that is empty or starts with a non-space |
| Text.TrimEndShape | src/App.js:938 | the same for the trailing white space |
| Text.BlankIffTrimEmpty | src/App.js:610 | `s.trim() !== ''` holds exactly when `s` is not all white space |
| Text.TrimNoSpace | src/App.js:938 | a string without white space is its own trim |
| Text.Split | src/App.js:1186 | `split` yields at least one piece and no piece contains a separator |
| Text.SplitFree | src/App.js:1186 | a string without a separator splits into itself alone |
| Text.SplitAtSeparator | src/App.js:1186 | splitting at a separator gives the pieces of the part before it followed by the pieces of the part after it |
| Text.SplitJoin | src/App.js:1186 | splitting on one separator and joining again gives the original string back |
| Text.NonBlank | src/App.js:1181 | `filter(row => row.trim())` keeps exactly the non-blank pieces; a single piece is kept exactly when it is not blank |
| Text.NonBlankAppend | src/App.js:1181 | the filter works piece by piece: on a concatenation it keeps the kept pieces of each part, in order |
| Text.NatToString | src/App.js:1302 | the decimal rendering of a number is all digits with no leading zero |
| Text.ParseIntOfIntToString | src/App.js:576 | `parseInt` inverts the decimal rendering of every integer |
| Text.FirstOf | src/App.js:227 | the first position holding one of the given characters, or the length |
| Text.IntToStringIsNumeric | src/App.js:1439 | `isNaN` is false for the rendering of every integer |
| Categories.ToggleCategory | src/App.js:797-858 | the handler's imperative steps give exactly the rule function's new selection and outcome |
| Categories.ToggleKeepsClosed | src/App.js:797-858 | a toggle never leaves 萃取/QC without 建庫 and 定序, or 建庫 without 定序 |
| Categories.ToggleKeepsNoDuplicates | src/App.js:797-858 | a toggle never lists a category twice |
| Categories.UncheckRule | src/App.js:801-823 | unticking is blocked exactly when a ticked category depends on it; a block changes nothing; otherwise only that category goes |
| Categories.CheckRule | src/App.js:825-854 | ticking appends the category and then exactly its missing dependencies, reported as auto-checked |
| Categories.ReachableSelections | src/App.js:797-858 | every selection reachable by clicks from the empty one is dependency-closed and duplicate-free |
| Categories.CheckingExtraction | src/App.js:825-854 | ticking 萃取/QC on an empty selection appends it with 建庫 and 定序 and reports those two as auto-checked |
| Categories.ExtractionHoldsItsDependencies | src/App.js:801-823 | while 萃取/QC is ticked, 建庫 and 定序 cannot be unticked and the block names 萃取/QC; unticking 萃取/QC leaves 建庫 and 定序 |
| Categories.LibraryHoldsSequencing | src/App.js:801-823 | while 建庫 is ticked, 定序 cannot be unticked; unticking 建庫 leaves 定序 ticked |
| Services.FirstItem | src/App.js:907 | `find` by category: the result is the first item with that category, and there is none exactly when no item has it |
| Services.GetExtractionType | src/App.js:1030-1054 | the loop's result is DNA, RNA or Mixed exactly as the first extraction item's lines include DNA codes, RNA codes or both; none without such an item |
| Services.KeepLibraries | src/App.js:1058-1083 | keeps exactly the options whose RNA-library status is the one asked for; a single option is kept exactly when its status matches |
| Services.KeepLibrariesAppend | src/App.js:1058-1083 | the filter works option by option: on a concatenation it keeps the kept options of each part, in order |
| Services.FilterAgreesWithCheck | src/App.js:1058-1083 | every option the filter offers passes the step-2 rule, and every non-empty option passing the rule is offered |
| Services.FilterByType | src/App.js:1058-1083 | DNA offers the non-L-RN options, RNA only the L-RN ones, mixed or unknown everything |
| Services.SumLines | src/App.js:573-577 | the inner loop's sum is the GB total of the lines |
| Services.CalculateTotalSequencing | src/App.js:569-581 | the loop's total is the GB total of the 定序 items |
| Services.LinesGbAppend | src/App.js:573-577 | the GB total is additive over concatenated lines |
| Services.TotalIsSequencingLinesOnly | src/App.js:569-581 | the total depends only on the lines of the 定序 items |
| Services.UnpricedLinesBuyNothing | src/App.js:559-577 | lines whose code is not in the GB table or whose quantity is not a number add nothing |
| Services.Rank | src/App.js:999-1006 | each category's position in the canonical order |
| Services.SelectedFrom | src/App.js:1009-1011 | `categoryOrder.filter(includes)`: the selected categories, strictly in canonical order |
| Services.FreshItems | src/App.js:1013-1018 | one fresh item (one empty line, library type 無) per category, in order |
| Services.FreshItemsCover | src/App.js:1013-1018 | a category has a fresh item exactly when it is in the list |
| Services.RebuildServiceItems | src/App.js:997-1023 | the rebuilt items each have one empty line, come from the selection and are strictly in canonical order |
| Services.RebuildCoversSelection | src/App.js:997-1023 | a category has a rebuilt item exactly when it was selected; a non-empty selection gives at least one item |
| Services.ChangeService | src/App.js:1119-1123 | only the addressed line's field changes; everything else is kept |
| Services.AddService | src/App.js:1125-1129 | the addressed item gains one empty line at the end; nothing else changes |
| Services.RemoveService | src/App.js:1131-1139 | refused exactly when the item has one line; otherwise that line is dropped |
| Services.AddServiceItem | src/App.js:1141-1151 | one fresh item without a category is appended |
| Services.RemoveServiceItem | src/App.js:1153-1159 | refused exactly when one item is left; otherwise that item is dropped |
| Services.ChangeServiceItem | src/App.js:1110-1117 | one field of one item changes; a new category also resets its lines to one empty line |
| Sheets.BlankRow | src/App.js:1192-1203 | a padding row: the given number, empty name and the table's number of empty fields |
| Sheets.Sanitize | src/App.js:273-276 | the result keeps only `[A-Za-z0-9_,-]` and is no longer than the input |
| Sheets.SanitizeIsSubsequence | src/App.js:273-276 | sanitizing only deletes characters, keeping the order |
| Sheets.SanitizeFixedPoints | src/App.js:273-276 | a name is left unchanged exactly when it already has only allowed characters |
| Sheets.SanitizeIdempotent | src/App.js:273-276 | sanitizing twice is sanitizing once |
| Sheets.SanitizeAppend | src/App.js:273-276 | sanitizing distributes over concatenation |
| Sheets.SanitizedNotBlank | src/App.js:273-276 | a non-empty sanitized name counts as a named row |
| Sheets.RowFromColumns | src/App.js:1295-1330 | a pasted row gets number `target + 1`, a sanitized name and the table's number of fields |
| Sheets.Pad | src/App.js:1304-1316 | the padding loop keeps the old rows and appends numbered blank rows up to the target |
| Sheets.PasteStep | src/App.js:1297-1330 | one pasted line moves the table from the state after `n` lines to the state after `n + 1` |
| Sheets.Paste | src/App.js:1178-1229 | the pasted table's length and every row are those of the paste specification; the count is the number of non-blank lines |
| Sheets.PasteFrame | src/App.js:1178-1229 | rows outside the pasted range keep their content (or are numbered blanks); rows inside it hold the pasted line |
| Sheets.PasteKeepsWellFormed | src/App.js:1178-1229 | a paste keeps every row at the table's field count |
| Sheets.JoinSplit | src/App.js:1186 | joining tab-free cells with tabs and splitting again gives the cells back |
| Sheets.PasteRowRoundTrip | src/App.js:1292-1343 | a row with a sanitized name and tab-free cells, written out as one tab-separated line (with its number where the table skips one), is read back by `PastedRow` as the same row, an all-digit name included |
| Sheets.RowLineIsOneLine | src/App.js:1181 | a written-out row with newline-free cells is one clipboard line: blank only in the library Sample Sheet (then nothing is pasted), otherwise the single pasted line |
| Sheets.PasteOneLine | src/App.js:1297-1330 | pasting one line that yields a row writes that row at the start index, keeps the other rows and pads with blank rows up to it |
| Sheets.PasteLineRoundTrip | src/App.js:1178-1229 | a row written out and pasted back through the paste handler at its own position comes back in place, with the other rows kept; a blank library Sample Sheet line pastes nothing |
| Sheets.RowLineColumns | src/App.js:1300 | such a line splits into exactly the number, the name and the fields |
| Sheets.AddRow | src/App.js:1232-1255 | a blank row numbered one past the length is appended; the old rows are kept |
| Sheets.RemoveRow | src/App.js:1259-1278 | refused exactly when one row is left; otherwise that row is dropped and the others keep their numbers |
| Sheets.ChangeCell | src/App.js:1161-1175 | only the addressed cell changes; a name is stored sanitized; the row keeps its number and its field count |
| Sheets.CountNamedBounds | src/App.js:604-620 | the named-row count equals the length exactly when every row is named, and is 0 exactly when none is |
| Sheets.CountNamedAppend | src/App.js:609-611 | the count is additive over concatenated tables |
| Sheets.CountAfterAdd | src/App.js:1232-1255 | adding a blank row leaves the count unchanged |
| Sheets.CountAround | src/App.js:1259-1278 | taking one row out of a table lowers the named count by one exactly when that row was named |
| Sheets.CountAfterRemove | src/App.js:1259-1278 | removing a row lowers the count by one exactly when that row was named |
| Sheets.TrimmedNames | src/App.js:937-939 | the trimmed names are non-empty and are exactly the non-empty trims of the rows' names; one row gives its trimmed name, or nothing when that is empty |
| Sheets.TrimmedNamesAppend | src/App.js:937-939 | the map and filter work row by row: two tables put together give the names of the first followed by those of the second |
| Sheets.TrimmedNamesDistinct | src/App.js:937-945 | the trimmed names are all different exactly when no two rows carry the same non-empty trimmed name |
| Sheets.RepeatsIn | src/App.js:941-943 | the names at a position other than their first occurrence |
| Sheets.RepeatsAtTwo | src/App.js:941-943 | a name is listed as a repeat exactly when it sits at two different positions |
| Sheets.NoRepeats | src/App.js:941-945 | no repeat is listed exactly when all names are different |
| Sheets.DuplicateNamesExact | src/App.js:936-949 | the reported names are exactly those at two positions, each once, and none are reported exactly when all names differ |
| Sheets.SumYields | src/App.js:590-593 | the loop's sum is the expected-yield total of the table |
| Sheets.TotalYieldAppend | src/App.js:590-593 | the yield total is additive over concatenated tables |
| Sheets.BlankRowsAddNoYield | src/App.js:1232-1255 | an added blank row adds no expected yield |
| Sheets.CellName | src/App.js:1442 | the imported name has only allowed characters; a missing cell gives an empty name |
| Sheets.KeptNameValid | src/App.js:1438-1447 | a kept line has at least two cells and a sanitized name that is not a placeholder |
| Sheets.ImportedRow | src/App.js:1448-1457 | an imported row carries the running number, the kept name and the table's field count |
| Sheets.ImportedShape | src/App.js:1436-1460 | imported rows are numbered 1, 2, … in order and every name is non-empty and sanitized |
| Sheets.ImportedLength | src/App.js:1435-1458 | each worksheet line adds one row when it is past the header lines and kept, and none otherwise |
| Sheets.ImportedMonotone | src/App.js:1435-1458 | reading more worksheet lines never removes an imported row |
| Sheets.ImportedWellFormed | src/App.js:1448-1457 | every imported row has the columns of its table |
| Sheets.ImportedHasKeptLine | src/App.js:1436-1465 | one kept line after the header lines makes the import non-empty |
| Sheets.ImportedNoKeptLine | src/App.js:1436-1465 | with no kept line after the header lines the import is empty |
| Sheets.ImportSheet | src/App.js:1536-1563 | the `forEach` loop builds exactly the imported rows |
| Sheets.ImportedAllNamed | src/App.js:1466 | every imported row is named, so the stored count is the number of imported rows |
| Sheets.ImportNumberedName | src/App.js:1438-1447 | a line led by a number takes its name from the second cell, sanitized, and is dropped exactly when that name is a placeholder |
| Sheets.ImportNumberedFields | src/App.js:1448-1457 | the data columns of a kept numbered line are the texts of the cells after its name, in order |
| Sheets.ImportUnnumberedLine | src/App.js:1439-1447 | a line led by a non-numeric text takes its name from the first cell, dropped when it is a placeholder |
| Sheets.ImportShortLine | src/App.js:1438 | a one-cell line is never imported |
| Sheets.ImportWorkbook | src/App.js:1414-1594 | a `library` name fills the two library tables from worksheets 1 and 2 (two header lines), each exactly when its worksheet has a kept line; otherwise a `sample` name fills the sample table from worksheet 1 (three header lines), reports no rows exactly when that worksheet has no kept line, or reports a missing sheet; any other name is refused |
| Email.PatternImpliesAddress | src/App.js:227-229 | every string the regular expression matches passes the one-pass address test |
| Email.AddressImpliesPattern | src/App.js:227-229 | every string passing the one-pass test matches the regular expression |
| Email.EmailPatternIff | src/App.js:227-229 | the two readings of the address pattern agree on every string |
| Email.TrimmedPieces | src/App.js:224 | the kept addresses are never empty |
| Email.TrimmedPiecesMembers | src/App.js:224 | the kept addresses are exactly the non-empty trims of the pieces |
| Email.SplitOfBlank | src/App.js:221-224 | a blank field splits into blank pieces only |
| Email.ValidateEmailMeaning | src/App.js:220-230 | the field is accepted exactly when some piece is not blank and every non-blank piece, trimmed, matches the pattern |
| Wizard.InitialFormConsistent | src/App.js:325-420 | the initial form is consistent: nothing selected, one item with one line, one blank row per table |
| Wizard.WithSheet | src/App.js:1168-1174 | replacing one table leaves every other field of the form unchanged, and a ready table keeps the form consistent |
| Wizard.SampleCountBounds | src/App.js:604-620 | the count is 0 for 無送樣; otherwise it is at most the counted table's length and 0 exactly when no row of it is named |
| Wizard.CalculateExpectedSequencing | src/App.js:584-602 | the loop's total is the yield of the table the sample type counts, and 0 for 無送樣 |
| Wizard.IdentityGate | src/App.js:863-875 | step 0 passes exactly when a sales code is entered and known |
| Wizard.ProfileGate | src/App.js:876-895 | step 1 passes exactly when a sales person is chosen, organisation and contact are filled, the e-mail field is accepted and a category is ticked |
| Wizard.ItemSelectionGate | src/App.js:896-931 | step 2 passes exactly when every item has a line with code and quantity and the first library item fits the extraction type; the first failure is reported; a library refusal names that type |
| Wizard.FilteredChoicesPassLibraryCheck | src/App.js:905-931 | library codes picked from the filtered list never trip the step-2 library rule |
| Wizard.DuplicateCheckPasses | src/App.js:936-949 | one table's duplicate rule passes exactly when its trimmed names all differ |
| Wizard.DuplicateCheckReport | src/App.js:941-949 | a refusal names the table and lists each repeated trimmed name exactly once |
| Wizard.SampleManifestGate | src/App.js:932-982 | step 3 passes exactly when the names differ in both library tables for a Library order, or in the sample table for any other type except 無送樣 |
| Wizard.SampleManifestRefusal | src/App.js:932-982 | a step-3 refusal is the refusal of one shown table, the detail table only once the library Sample Sheet is free of repeats |
| Wizard.SignatureGate | src/App.js:983-988 | step 4 passes exactly when something is signed |
| Wizard.UpdateSheet | src/App.js:1669-1684 | a table handler changes only its table and the stored count; where it stores the count, it stores the count of that table, which is the sample count when that table is the counted one; a ready table keeps the form consistent |
| Wizard.LibraryEditLeavesCountStale | src/App.js:1161-1175 | naming the first row of a fresh Library order through the cell handler leaves the stored count empty while the computed count is 1 |
| Wizard.UpperAscii | src/App.js:436 | `toUpperCase` on ASCII letters, keeping the length |
| Wizard.Advance | src/App.js:1023 | `Math.min(prev + 1, steps.length)`: one step forward below 6, and 6 from any step at or beyond it; never above 6 |
| Wizard.LeavingProfileStep | src/App.js:994-1026 | after step 1 the items are one fresh item per ticked category, strictly in canonical order |
| Wizard.OrderForm.constructor | src/App.js:325-420 | a session starts at step 0 with the initial form, with the invariant holding |
| Wizard.OrderForm.ChangeSalesCode | src/App.js:435-444 | the code is stored upper-cased with its sales person (or none); step 0 then passes exactly for a known code |
| Wizard.OrderForm.NextStep | src/App.js:994-1026 | a refused gate changes nothing; a passed one advances as `Advance` says (from step 5 to 6, the step count) and, from step 1 with a selection, rebuilds the items; the invariant is kept |
| Wizard.OrderForm.PrevStep | src/App.js:1084-1087 | one step back, never before step 0; the form is untouched |
| Wizard.OrderForm.ToggleServiceCategory | src/App.js:797-858 | the selection becomes the toggle rule's result and stays dependency-closed and free of repeats |
| Wizard.OrderForm.ChangeServiceItem | src/App.js:1110-1117 | only the items change, as the item rule says |
| Wizard.OrderForm.ChangeService | src/App.js:1119-1123 | only the items change, as the line rule says |
| Wizard.OrderForm.AddService | src/App.js:1125-1129 | only the items change, gaining one empty line |
| Wizard.OrderForm.RemoveService | src/App.js:1131-1139 | refused, changing nothing, exactly when the item has one line |
| Wizard.OrderForm.AddServiceItem | src/App.js:1141-1151 | only the items change, gaining one fresh item |
| Wizard.OrderForm.RemoveServiceItem | src/App.js:1153-1159 | refused, changing nothing, exactly when one item is left |
| Wizard.OrderForm.ChangeCell | src/App.js:1161-1175 | one cell is written; only the sample table's handler stores the count (1280-1289, 1669-1684) |
| Wizard.OrderForm.PasteTable | src/App.js:1178-1229 | the table becomes the paste result; only the sample table's handler stores the count (1292-1343, 1687-1744) |
| Wizard.OrderForm.AddRow | src/App.js:1232-1255 | a blank row is appended; the library Sample Sheet and sample table store the count, the detail table does not (1345-1364, 1747-1772) |
| Wizard.OrderForm.RemoveRow | src/App.js:1259-1278 | refused exactly when one row is left; otherwise as for adding (1366-1379, 1775-1794) |
| Wizard.OrderForm.ClearSheet | src/App.js:1596-1666 | the table goes back to one blank row; the stored count is left as it was |
| Wizard.OrderForm.AutoFillSampleCount | src/App.js:623-629 | stores and returns the sample count the sample type asks for |
| Wizard.OrderForm.SaveSignature | src/App.js:1795-1800 | the signature is stored; a non-empty one opens step 4 |
| Wizard.OrderForm.ClearSignature | src/App.js:1806-1810 | the signature is removed and step 4 refuses again |
| Wizard.OrderForm.UploadWorkbook | src/App.js:1414-1594 | each table the import filled replaces the old one; the library Sample Sheet and the sample table store their count, the detail table does not; a refused file changes nothing |

## Left out

- The backend (`tgia-backend/server.js`), order submission, PDF and Excel export, the signature pad's drawing, rendering, `fetch`, timers, `alert`/`confirm` dialogs and every message string: the model returns which refusal happened instead of its text.
- XLSX parsing is not modelled: the import starts from the cells `sheet_to_json` returns, with numeric cells restricted to integers.
- `parseFloat` for the expected yield is the abstract parameter `yieldOf`; floating-point addition is modelled by exact real addition.
- React state aliasing: the handlers copy the outer array shallowly and then mutate a row or item in place, which also mutates the previous state object; the model treats every update as producing a new value.
- `handleInputChange` writes any named form field; the model keeps only the fields the rules read and does not model generic field writes, the organisation suggestions or the customer-code lookup.
- The `confirm` dialog of the clear handlers is assumed to be accepted; a declined dialog changes nothing.
- The sales directory is a map from code to name; a list with repeated codes (where `find` takes the first) is not modelled.
- Wizard.UpperAscii: upper-cases only ASCII letters, not the full Unicode mapping of `toUpperCase`.
- Sheets.LowerAscii: lower-cases only ASCII letters, which decides the same `library`/`sample` substring test.
- Services.ChangeServiceItem: a category is one of the six categories or none; arbitrary category strings are not modelled.
- 分析服務 (A) and 套組產品 (AP) are ordinary check boxes in `src/App.js`: apart from their place in the canonical order and the step-2 line check, no rule reads them (no quantity rescaling, sample-type resolution, reconciliation gate, minimum quantity or analysis-service filter).
- Text.NatToString: renders every natural number in plain decimal digits; JavaScript's `String(n)` switches to exponent notation (`1e+21`) from 10^21 on, and numbers above 2^53 are not exact doubles.
- Text.IntToString: the same limit as `NatToString` for negative numbers.
- Text.ParseIntOfIntToString: holds for every integer in the model; in JavaScript `parseInt` rounds results above 2^53 to the nearest double, and the exponent rendering from 10^21 on parses back to its leading digit.
- Text.ParseInt: returns an exact integer; JavaScript rounds results above 2^53 to the nearest double.
- Services.LineGb: the quantity is an exact integer and the product is exact; in JavaScript both are doubles, rounded above 2^53.
- Services.SumLines: `total += gbPerUnit * quantity` is exact integer addition; in JavaScript it is floating-point addition, which rounds above 2^53.
- Services.ChangeServiceItem: requires `index < |items|`; the handler with an index past the end throws a `TypeError` (`newItems[index]` is `undefined`), which the model does not represent.
- Services.ChangeService: requires both indices in range; the handler throws a `TypeError` on an out-of-range item or line index.
- Services.AddService: requires `itemIndex < |items|`; the handler throws a `TypeError` on an out-of-range item index.
- Services.RemoveService: requires `itemIndex < |items|`; the handler throws a `TypeError` on an out-of-range item index (a line index past the end is modelled and removes nothing).
- Sheets.ChangeCell: requires `index < |sheet|` and a data column of the row; the handler throws a `TypeError` on an out-of-range row, and a write to a property name that is not a column of the table is not modelled.
- Wizard.OrderForm.ChangeServiceItem: the same index requirement as `Services.ChangeServiceItem`.
- Wizard.OrderForm.ChangeService: the same index requirements as `Services.ChangeService`.
- Wizard.OrderForm.AddService: the same index requirement as `Services.AddService`.
- Wizard.OrderForm.RemoveService: the same index requirement as `Services.RemoveService`.
- Wizard.OrderForm.ChangeCell: requires a row index within the table and a column of the table, as `Sheets.ChangeCell`.
