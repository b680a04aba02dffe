# Annotation session model

A Dafny model of the labelling page in `main.js`. The page loads a decoded table, lets an operator page through its data rows and label each one, and exports the table with one extra label column. The model covers:

- the session state (`STATE`: the table, one label slot per data row, the query column, the cursor and the header flag) and every handler that updates it in place;
- the read model that `updateUI` and `highlightButtons` derive from the state;
- the key-to-command table of `handleKeyboard`, including `String.prototype.trim`;
- the export transform of `buildAnnotatedCsv`, up to the point where the rows are handed to the CSV encoder.

Files:

- `Rows.dfy`: the data-row view (`getDataRows`, `getCurrentRow`), `splice` as JavaScript defines it for a start past the end of a row, and the exported table as a function (`AnnotatedRows`). Its partners are `StripLabelColumn` and `LabelColumn`, which take an export apart again; the round-trip and label-preservation lemmas connect them.
- `Projection.dfy`: what `updateUI` shows (query text or the `—` placeholder, `position / total`, the labelled count), and the button highlighted by `highlightButtons`.
- `Keyboard.dfy`: `trim` over the ECMAScript WhiteSpace and LineTerminator characters, and `KeyCommand`, the dispatch of `handleKeyboard` as a pure function of the key, the focus and the custom field's text.
- `Session.dfy`: the class `State` with the `STATE` fields. `Valid()` is the session invariant: one slot per data row, the cursor on a slot whenever there is one, and the query column a header-row index (or 0 with no table). Each handler is a method with its new state in `ensures`. `BuildAnnotatedCsv` is the export loop, proved equal to `AnnotatedRows`. A worked example session (load, key "1", jump, export) ends in a fixed table.

Behaviour of the code worth knowing:

- In `handleKeyboard`, every binding stays live while the custom label field has focus, including Backspace and the arrows. Only other `INPUT`/`TEXTAREA` elements suppress the keys.
- The export inserts the label at `queryColumn + 1` only in rows long enough to have that index. A shorter row gets the field appended at its end. `ExportColumnAligned` states when the column lines up.
- With the header flag on and no rows at all, `buildAnnotatedCsv` fails on the missing header row; `BuildAnnotatedCsv` returns `None` there.

## Model

| member | source | states |
|---|---|---|
| Rows.DataRows | main.js:97-99 | Data rows are the table minus its first row when the header flag is on. There are as many as the table has rows minus that offset, or none for an empty table. Data row i is raw row i + offset. |
| Rows.CurrentRow | main.js:101-104 | The data row under the cursor when the cursor is in range, otherwise the empty row. |
| Rows.Insert | main.js:197-205 | `splice(start, 0, x)` on a copy: the row grows by exactly one field, and x sits at `start`, or at the end when `start` is past the end. |
| Rows.InsertShape | main.js:197-205 | The spliced row is the old prefix, then x, then the old suffix, so every other field keeps its order. |
| Rows.RemoveAt | main.js:193-206 | Partner of the export: dropping field p shortens the row by one and shifts the later fields down. |
| Rows.InsertedAtRemove | main.js:197-205 | Removing an inserted field gives the original row back. |
| Rows.AnnotatedRows | main.js:193-206 | The export has as many rows as the table. Each row is one field longer, with the column title (header row) or the row's label (data row, `''` when missing) at the label position. |
| Rows.ExportColumnAligned | main.js:197-205 | If every row has a field at the query column, the inserted field is at `queryColumn + 1` in every row. |
| Rows.ExportShape | main.js:193-206 | Export row i is raw row i with exactly one field inserted at `queryColumn + 1`, or at the end of a shorter row. |
| Rows.StripLabelColumn | main.js:193-206 | Partner of the export: removes the label field from every row, keeping the row count. |
| Rows.LabelColumn | main.js:193-206 | Partner of the export: reads back one label field per data row. |
| Rows.ExportRoundTrip | main.js:193-206 | Stripping the label column from an export gives back exactly the original table. |
| Rows.LabelColumnOf | main.js:202-206 | Reading the label column of a table whose data rows carry the given labels returns exactly those labels. |
| Rows.ExportKeepsLabels | main.js:193-206 | With one label per data row, the exported label column is exactly the label sequence, in row order. |
| Projection.LabeledCount | main.js:152 | The number of non-empty slots is at most the number of slots. |
| Projection.LabeledCountFull | main.js:152 | The count equals the number of slots exactly when every slot is labelled. |
| Projection.LabeledCountZero | main.js:152 | The count is 0 exactly when every slot is unset. |
| Projection.LabeledCountUpdate | main.js:152 | Writing one slot changes the count by exactly what left and entered the slot: +1 for labelling an unset row, -1 for clearing a labelled one. |
| Projection.QueryText | main.js:149-150 | The query cell when present and non-empty, otherwise `—`; never empty. |
| Projection.Project | main.js:143-155 | Nothing is redrawn (the previous display stays on screen) exactly when there are no data rows. Otherwise it shows the current row, its query text, the position (cursor + 1, within 1..total for a valid cursor), the total and the labelled count (at most the total). |
| Projection.ActiveButtons | main.js:180-190 | At most one button is lit. None is lit exactly for the unset label. Each canonical label lights its own button, and any other non-empty label lights the custom button. |
| Projection.HighlightedButtons | main.js:181 | At most one button is lit. None is lit exactly when the cursor is off the slots or its slot is unset. |
| Keyboard.LeadingEnd | main.js:237 | The leading whitespace run from a start index ends at the first index that is not whitespace (or at the end); everything before it is whitespace. |
| Keyboard.TrailingStart | main.js:237 | The trailing whitespace run up to an end index starts right after the last character that is not whitespace (or at the lower bound); everything from it on is whitespace. |
| Keyboard.TrimBy | main.js:237 | What trimming keeps is no longer than the input, and when non-empty neither starts nor ends with a character of the class. |
| Keyboard.TrimIsSlice | main.js:237 | The trimmed text is one contiguous slice of the input, and everything cut before and after it is whitespace. |
| Keyboard.TrimByBlank | main.js:237-238 | Trimming yields `''` exactly when every character is whitespace, which is the case where the custom label is ignored. |
| Keyboard.TrimIdempotent | main.js:237 | Trimming twice is trimming once. |
| Keyboard.KeyCommand | main.js:223-255 | Keys are ignored when there are no label slots (so also for a header-only table) or when any other `INPUT` or `TEXTAREA` element has focus, the header checkbox and the file picker included. Otherwise: "1" and "2" apply the canonical labels, "3" applies the trimmed custom text if it is not blank, Backspace clears, ArrowRight/Enter step forward, ArrowLeft steps back (each an if-and-only-if). A label applied is never empty. |
| Session.FirstUnset | main.js:133-137 | The search result is an index, or the length for "not found". |
| Session.FirstUnsetLeast | main.js:133-137 | `findIndex` finds the least unset slot at or after the start, and reports "not found" only when there is none. |
| Session.JumpTarget | main.js:132-141 | The jump lands on a slot, or stays at the cursor. |
| Session.JumpTargetSearch | main.js:132-141 | First unset slot after the cursor; failing that, the first unset slot overall (at or before the cursor); with every slot labelled the cursor stays; a cursor on a slot stays on a slot. |
| Session.State.constructor | main.js:20-26 | The initial state: no rows, no slots, column 0, cursor 0, header flag on; the invariant holds. |
| Session.State.ResetState | main.js:28-32 | Clears rows, slots, column and cursor, keeps the header flag, and establishes the invariant. |
| Session.State.ParseFile | main.js:59-76 | After reset: a decode error or an empty file leaves the empty state. Otherwise the rows are taken, the header flag follows the checkbox, and there is one unset slot per data row with cursor and column 0. |
| Session.State.ToggleHeader | main.js:263-271 | The flag follows the checkbox. With rows loaded, all slots are reset to unset (one per new data row) and the cursor to 0. Without rows only the flag changes. The table and the column never change. |
| Session.State.SelectColumn | main.js:273-276 | Only the query column changes, to a header-row index. |
| Session.State.MoveToNext | main.js:118-123 | The cursor becomes `min(i + 1, n - 1)`, with no wrap-around; only the cursor may change. |
| Session.State.MoveToPrev | main.js:125-130 | The cursor becomes `max(i - 1, 0)`, with no wrap-around; only the cursor may change. |
| Session.State.SetAnnotation | main.js:106-110 | A no-op with no slots. Otherwise exactly the slot under the cursor is written, then the cursor advances by at most one, clamped at the last slot. |
| Session.State.ClearAnnotation | main.js:112-116 | Unsets the slot under the cursor without moving the cursor. It is a no-op with no slots or on an already unset slot, so it is idempotent. |
| Session.State.JumpToNextUnlabeled | main.js:132-141 | The cursor moves to JumpTarget; only the cursor may change. |
| Session.State.HandleKeyboard | main.js:223-255 | Runs the handler KeyCommand selects, with exactly that handler's effect on slots and cursor; the slot count never changes. |
| Session.State.ClickLabelButton | main.js:278-283 | The canonical buttons apply their label. The custom button applies the trimmed text and is a no-op when it is blank. |
| Session.State.BuildAnnotatedCsv | main.js:193-206 | The in-place splice loop over a copy of the rows yields exactly `AnnotatedRows`; `None` when the header row is missing. The state is not modified. |
| Session.ExampleExport | main.js:193-206 | The export of a three-row header-less table labelled on its first row puts each label right after the query column. |
| Session.ExampleLoad | main.js:59-76 | Loading the three-row table gives three unset slots, cursor 0 and column 0. |
| Session.ExampleKeyPress | main.js:229-232 | Key "1" labels the first row natural and moves to the second. |
| Session.ExampleLabelling | main.js:132-141 | The jump searches strictly after the cursor, so from the unset second row it lands on the third row. |
| Session.ExampleSession | main.js:193-206 | The whole session exports `[["a", "natürlich", "1"], ["b", "", "2"], ["c", "", "3"]]`. |

## Left out

- DOM and rendering (element lookups, text and HTML updates, `toggleControls`, `renderPreview`, `buildColumnSelect`'s option elements, CSS classes): these show the state and do not change it. `Project` models the row, query text, counter and labelled count that `updateUI` displays, and `ActiveButtons` the highlighted button. The preview's column titles (`headerRow[idx]` or `Spalte n`), its cell values (`value ?? '—'`) and annotation cell (`annotations[currentIndex] || '—'`), and the select's option labels are not modelled.
- The CSV codec (`Papa.parse`, `Papa.unparse`): the decoded rows are a parameter (`Decoded`), and the export stops at the row sequence handed to the encoder.
- The asynchronous parse callback: `ParseFile` models the reset and the state change of the completed callback as one step. A read error is the `DecodeError` case. The messages it shows are not modelled.
- The download (byte-order mark, `Blob`, object URL, link click): browser I/O.
- The progress bar width `Math.round(labeledCount / total * 100)`: floating point. Only the integer count and its bound are modelled.
- `Object.values` for non-array decoded rows: rows are always sequences of fields here.
- `event.preventDefault()` on Backspace and the focus test itself: the focus is an input (`Focus`), and the browser default action is not modelled.
- Session.State.SelectColumn: requires an index of the header row rather than clamping, because the select element only offers those indices.
- Keyboard.Trim: carries no contract of its own; its properties are stated for `TrimBy` over any character class, and `Trim` is `TrimBy` with the ECMAScript whitespace set.
- Projection.Project: returns `None` where `updateUI` returns early; what then stays on screen (the previous row and counter, for example after turning the header flag on for a header-only table) is not modelled.
