# Juno: a verified model of the in-memory state transitions

Juno is a small React single-page application that keeps tasks and clients in memory and
offers two editable tables. Everything it does to its data happens in the event handlers of
`Juno/index.jsx`: each handler computes a new array (or object) from the old one and hands
it to a state setter. This project lifts those computations out as Dafny functions on
sequences and maps, keeps the state cells as fields of classes whose methods replace them,
and proves what the handlers do and what they leave alone.

Modules, one per component of the source:

- `Text`: `trim` and `toLowerCase` over ASCII.
- `Records`: id-tagged record lists, `{ ...fields, id }`, with filter-by-id and find-by-id.
  Tasks, clients and the rows of the fixed-schema table all share it.
- `Entities`: the task and client records and the lists a fresh page starts with.
- `Stores`: `TaskProvider` and `ClientProvider`, one generic `Store` class.
- `FixedTable`: the `EditableTable` "Data Table" widget (`{id, name, email, role}` rows).
- `DetailGrid`: the `EditableProjectDetails` grid. Its columns are labels, and its rows are
  maps keyed by the lower-cased label.
- `Forms`: the required-field guards of `NewTask.submit`, `ClientGallery.handleAddClient`
  and `ClientDetail.handleAddDetail`, and the form state they reset.
- `Wrappers`: `Option`.

Behaviour of the code that the model keeps as written:

- Removal deletes every record with the id, not only the first. Lookup returns the first
  match. Ids come from the clock, so they need not be unique. The lemmas that need fresh
  or unique ids say so in their preconditions.
- The client form checks the trimmed name, but the draft it adds is untrimmed. The task
  form stores the trimmed title and notes. The detail form stores the untrimmed text.
- `addColumn` stores the untrimmed label and keys it by the lower-cased untrimmed label.
  Labels that differ only in case share one key. Adding such a column resets that key to
  "" in every row (`DetailGrid.WithColumnView`, `DetailGrid.CollisionScenario`).
- `handleAddDetail` always appends a row keyed `description` and `status`, whatever the
  grid's columns are. After a column has been added, such a row no longer holds a key for
  every column (`DetailGrid.DetailRowShape`). The table still shows "" there, because a
  missing key reads as "" (line 542).
- The grid's cell edit looks up `columns[columnIndex]` only for the row being edited. So it
  asks for a valid column index only when the row index is in range.
- "Remove Client" on the client detail page removes the client without navigating away.

## Model

| member | source | states |
|---|---|---|
| Text.Trim | Juno/index.jsx:87-88 | the result is the slice of the input left after cutting white space from both ends: it is empty or starts and ends with a non-space, and everything cut off is white space |
| Text.IsBlank | Juno/index.jsx:87 | the `!s.trim()` guard holds exactly when every character is white space |
| Text.TrimIdempotent | Juno/index.jsx:88 | trimming an already trimmed string changes nothing |
| Text.ToLower | Juno/index.jsx:496 | same length; every upper-case letter is replaced by its lower-case form and every other character is kept, so no upper-case letter is left |
| Text.SameKeyIffSameIgnoringCase | Juno/index.jsx:510 | two labels get the same key exactly when, letter by letter, they are equal or one is an upper-case ASCII letter and the other its lower-case form |
| Records.RemoveId | Juno/index.jsx:32 | no record with the id is left; every other record keeps its number of occurrences; the list does not grow |
| Records.RemoveIdAppend | Juno/index.jsx:32 | removal distributes over concatenation, so the kept records stay in their original order |
| Records.RemoveIdUnchangedIff | Juno/index.jsx:296-297 | removal leaves the list unchanged exactly when no record has the id |
| Records.RemoveIdIdempotent | Juno/index.jsx:296-297 | removing the same id twice equals removing it once |
| Records.RemoveFromUnique | Juno/index.jsx:32 | on a list with unique ids, removal keeps ids unique and shortens the list by exactly one when the id is present, by none otherwise |
| Records.FindId | Juno/index.jsx:33 | returns nothing exactly when no record has the id; otherwise returns the record at the first position holding it |
| Records.FindAfterAppend | Juno/index.jsx:30-33 | after an append, lookup returns the earlier match if there is one, else the appended record if its id matches, else nothing |
| Records.FindAfterAppendFresh | Juno/index.jsx:30-33 | a record added under a fresh id is found as exactly the draft plus that id |
| Records.RemoveAfterAppendFresh | Juno/index.jsx:30-32 | removing the fresh id just added restores the previous list |
| Records.AppendFreshKeepsUnique | Juno/index.jsx:294-295 | appending under a fresh id keeps the ids unique |
| Stores.Store.Add | Juno/index.jsx:30-31 | the new list is the old one followed by exactly one record, the draft with the supplied id |
| Stores.Store.Remove | Juno/index.jsx:296-297 | the new list is the old one filtered by id (see Records.RemoveId) |
| Stores.NewTaskStore | Juno/index.jsx:25-28 | a fresh task store holds the two seeded tasks |
| Stores.NewClientStore | Juno/index.jsx:277-292 | a fresh client store holds the two seeded clients |
| FixedTable.WithField | Juno/index.jsx:159 | the edited field reads the new value; the other fields are unchanged |
| FixedTable.EditField | Juno/index.jsx:157-161 | same row count, order and ids; the field is set on the rows whose id matches; every other field of every row is unchanged |
| FixedTable.EditFieldOtherRows | Juno/index.jsx:158-160 | a row whose id differs is left as the very same value |
| FixedTable.EditFieldLastWins | Juno/index.jsx:157-161 | editing the same field twice keeps only the second value |
| FixedTable.EditThenDelete | Juno/index.jsx:157-174 | deleting a row after editing it equals deleting it without the edit |
| FixedTable.EditableTable.constructor | Juno/index.jsx:152-155 | the table starts with two blank rows with ids 1 and 2 |
| FixedTable.EditableTable.HandleCellEdit | Juno/index.jsx:157-161 | the rows become the edited rows (see FixedTable.EditField) |
| FixedTable.EditableTable.AddRow | Juno/index.jsx:163-170 | exactly one row, with the given id and empty name, email and role, is appended |
| FixedTable.EditableTable.DeleteRow | Juno/index.jsx:172-174 | every row with the id is removed and the rest stay in order |
| DetailGrid.View | Juno/index.jsx:537-547 | what the table shows has one line per row and one cell per column |
| DetailGrid.BackFill | Juno/index.jsx:510 | same row count; each row gains the key with value "" and keeps every other key and value |
| DetailGrid.WithColumn | Juno/index.jsx:507-512 | a blank label changes neither columns nor rows; otherwise one column is appended, the row count is kept, and every row gets the lower-cased label set to "" with its other keys unchanged |
| DetailGrid.WithColumnCovers | Juno/index.jsx:507-512 | if every row held a key for every column, it still does after adding a column |
| DetailGrid.WithColumnView | Juno/index.jsx:510 | after adding a column, the new column and every earlier column with the same key read "" in every row; all other cells are unchanged |
| DetailGrid.NewRow | Juno/index.jsx:501-503 | the loop over the columns builds the row holding "" under exactly the columns' keys |
| DetailGrid.BlankRowView | Juno/index.jsx:501-505 | the appended row shows "" in every column and keeps every row covering every column |
| DetailGrid.WithCell | Juno/index.jsx:494-499 | only the row at the index changes; in it, only the edited column's key changes, to the value; columns and row count are kept; an out-of-range index changes nothing |
| DetailGrid.WithCellCovers | Juno/index.jsx:494-499 | editing a cell keeps every row covering every column |
| DetailGrid.WithCellView | Juno/index.jsx:494-497 | after an edit, in the edited row, every column sharing the edited key shows the value; every other cell is unchanged |
| DetailGrid.WithoutRow | Juno/index.jsx:550 | removes exactly the element at the index and shifts later ones down by one; an index past the end changes nothing |
| DetailGrid.WithoutRowView | Juno/index.jsx:549-551 | deleting a row deletes exactly that line of the shown table and keeps rows covering columns |
| DetailGrid.InitialKeys | Juno/index.jsx:491 | the initial columns are keyed "description" and "status" |
| DetailGrid.DetailRowShape | Juno/index.jsx:454 | a detail row shows its text under columns keyed "description" and "" elsewhere; appending it keeps rows covering the columns exactly when no column has another key |
| DetailGrid.ProjectDetails.constructor | Juno/index.jsx:491 | the grid starts with columns Description and Status and no rows |
| DetailGrid.ProjectDetails.AddColumn | Juno/index.jsx:507-512 | the new columns and rows are those of DetailGrid.WithColumn |
| DetailGrid.ProjectDetails.AddDetailRow | Juno/index.jsx:501-505 | columns unchanged; exactly one blank row for the current columns is appended |
| DetailGrid.ProjectDetails.HandleCellEdit | Juno/index.jsx:494-499 | the new rows are those of DetailGrid.WithCell |
| DetailGrid.ProjectDetails.DeleteRow | Juno/index.jsx:549-552 | columns unchanged; the row at the index is removed |
| Forms.TaskDraft | Juno/index.jsx:85-88 | rejected exactly when the title is all white space; otherwise the task has the trimmed, non-empty title and the trimmed notes |
| Forms.ClientDraft | Juno/index.jsx:321-325 | rejected exactly when the name is all white space; otherwise the draft is added exactly as typed |
| Forms.DetailDraft | Juno/index.jsx:451-454 | rejected exactly when the detail is all white space; otherwise the row holds the untrimmed text under "description" and "" under "status", and no other key |
| Forms.SubmitNewTask | Juno/index.jsx:85-90 | with a blank title nothing changes and there is no navigation; otherwise exactly one trimmed task with the supplied id is appended and the form navigates to the list |
| Forms.ClientGallery.constructor | Juno/index.jsx:313-319 | the add-form starts hidden with an empty draft and the placeholder image |
| Forms.ClientGallery.ToggleAddForm | Juno/index.jsx:334 | the add-form's visibility flips; the draft is kept |
| Forms.ClientGallery.HandleAddClient | Juno/index.jsx:321-328 | with a blank name nothing changes; otherwise the draft is appended under the id, the draft is reset and the form hidden |
| Forms.ClientDetail.constructor | Juno/index.jsx:448-449 | the detail input starts empty and the grid starts with its initial columns and no rows |
| Forms.ClientDetail.HandleAddDetail | Juno/index.jsx:451-456 | with blank input nothing changes; otherwise one description/status row is appended, the columns are kept and the input is cleared |

## Left out

- Rendering, styles, `createRoot` mounting and the React context plumbing (`useTasks`, `useClients`): these are presentation only.
- Routing (`BrowserRouter`, `Routes`, `Link`, `useParams`, `useNavigate`). A submit's navigation to `/` is only a boolean result of `Forms.SubmitNewTask`. The path id of a detail page is a parameter of `Records.FindId`. The detail pages' not-found screens are its "nothing" result.
- `Date.now()` id generation (lines 31, 165, 295) reads the clock. Ids are parameters. Uniqueness is assumed only where a lemma says so.
- `Forms.ClientGallery.HandleAddClient` models the intended path, in which `addClient` (`Store.Add`) runs and the form is reset. As written, the `useClients()` call inside `handleAddClient` (line 324) breaks React's hook rules: React throws "Invalid hook call" there, after the guard and before `addClient`. So a non-blank submission adds no client, keeps the draft and leaves the form open.
- The text inputs' `onChange` bindings are left out. The model keeps the form state they write: fields of `ClientGallery` and `ClientDetail`, and parameters of `SubmitNewTask` and `ProjectDetails.AddColumn`. `NewTask` never resets its inputs. The reset of `newColumnName` after a column is added (line 511) is not modelled.
- `projectDetails` belongs to `ClientDetail` and `columns` to `EditableProjectDetails`. The model keeps both in one `ProjectDetails` object, which `ClientDetail` holds. `client?.projectDetails` is always absent, so rows start empty.
- `DetailGrid.BlankRow`, `DetailGrid.NewRow`, `DetailGrid.BlankRowView`: grid rows are modelled as maps, but the source's rows are plain JavaScript objects. So a column keyed `__proto__` is not modelled. Writing that key at line 503 stores nothing, because the inherited setter ignores a string. Reading it at line 542 yields `Object.prototype`, which the input shows as "[object Object]". The model instead stores and shows "" for that key.
- `Stores.Store.Get` has no contract of its own: it returns `Records.FindId` on the current records.
- `FixedTable.EditField`: the source's computed key `[field]` accepts any string, but the UI passes only `name`, `email` and `role`. The model allows just those three fields.
- `DetailGrid.WithCell`: the source throws a `TypeError` when the edited row exists but the column index does not. The UI always passes the index of a rendered column, so this case is a precondition.
- Full Unicode `toLowerCase` and JavaScript's `trim` white-space set are not modelled. Only ASCII letters are lower-cased. Only space and TAB through CR count as white space.
- `Juno/juno/src/utils/api.js` (network `fetch` wrappers), `Juno/juno/src/components/Header.jsx` and `Juno/juno/src/App.jsx` (static markup) hold no state transitions. The `TaskList` module that `App.jsx` imports is not part of this model.
