# inquirer-input-table: the table prompt, modelled in Dafny

The repository provides `TablePrompt`, a prompt for the inquirer library
that asks the user to fill in a grid of text cells. The rows and columns are
given by name. The arrow keys move a cursor over the grid: rows stop at both
ends, columns wrap around. Other keys type into the cursor cell, and
backspace deletes its last character. After every keypress the visible page
of rows is drawn again. On enter, the grid becomes a flat answer keyed by
`"<rowName>_<columnName>"`.

The project is organised by concern:

- `grid.dfy` (`ValueGrid`): the sparse array of row arrays. It covers typing
  into a cell and deleting from it.
- `cursor.dfy` (`Cursor`): the four arrow keys, and what repeated presses do.
- `pagination.dfy` (`Pagination`): the window of visible rows.
- `projection.dfy` (`Projection`): the flat answer map and its keys.
- `decimal.dfy` (`Decimal`): decimal text for the "first-last of total"
  summary.
- `session.dfy` (`Session`): the prompt as a pure state machine over
  keypress events. This is the specification that the class methods follow.
- `rendering.dfy` (`Rendering`): the frame drawn for a state. It holds the
  summary, the column headings, the visible rows with the cursor cell in
  brackets, and the error line.
- `prompt.dfy` (`Prompt`): the class `TablePrompt`. Its fields `row`,
  `column` and `values` are updated in place by one method per key handler.
  Each handler returns the frame it draws.

Two behaviours of the code are kept as written:

- Answer keys are built by plain concatenation, so names containing `_` can
  give two cells the same key. The later write in row-major order then
  wins, and the answer has fewer entries than cells. The model keeps that
  behaviour (`Projection.LastWriteWins`, `Projection.CollidingNames`).
  Completeness is stated for distinct keys only.
- The code never checks that the axes are non-empty or the page size
  positive. The constructor requires non-empty axes. A page size of 0
  stands for "not given" and becomes 5.

## Model

| member | source | states |
|---|---|---|
| `Cursor.Up` | index.js:134-137 | defines the up key: one row up unless on row 0, where it stays; a non-negative row stays in [0, row] |
| `Cursor.Down` | index.js:100-104 | defines the down key: one row down unless on the last row, where it stays; a row on the axis stays between itself and the last row |
| `Cursor.Left` | index.js:117-124 | defines the left key: one column left, from column 0 to the last column; a column on the axis stays on it |
| `Cursor.Right` | index.js:126-132 | defines the right key: one column right, from the last column to 0; a column on the axis stays on it |
| `Pagination.Paginate` | index.js:156-166 | defines the window: half a page above the row, cut at the last row, shifted up by the shortfall; first is never negative and last never past the last row |
| `Projection.Key` | index.js:94 | defines the answer key: the row name, then '_', then the column name, recoverable from its parts at the row name's length |
| `Projection.RowEntries` | index.js:93-95 | defines one row's writes: the entries for each column in order, a later column overwriting an equal key |
| `Projection.ResultOf` | index.js:88-98 | defines the answer: every row's entries in row order, a later row overwriting an equal key |
| `Session.Step` | index.js:51-65 | defines one keypress as a state transition by key name; a well-formed, in-bounds state stays in bounds |
| `Rendering.CellLabel` | index.js:203-210 | defines a drawn cell: the text with two characters either side, beginning with '[' exactly for the cursor cell |
| `Rendering.Summary` | index.js:185 | defines the summary heading "first+1-last+1 of total" in decimal |
| `Rendering.VisibleRows` | index.js:197-221 | defines the drawn rows: of the rows seen so far, each one inside the window, with its highlighted name and its cells |
| `Rendering.ErrorLine` | index.js:224-226 | defines the error line: ">> " and the message, and empty exactly when there is no message |
| `Rendering.FrameOf` | index.js:168-228 | defines the frame for a state: summary of the window, column headings, visible rows and error line |
| `ValueGrid.Input` | index.js:139-147 | typing `v` makes the cursor cell read its old text (or "") followed by `v`; every other cell reads as before; the row is created when it was missing |
| `ValueGrid.Delete` | index.js:149-154 | backspace makes the cell read its old text without the last character; every other cell reads as before; an unset or empty cell leaves the grid unchanged |
| `ValueGrid.InputThenDelete` | index.js:139-154 | typing one character and then deleting it leaves the cell reading as before |
| `Cursor.RowsClamp` | index.js:100-137 | up and down keep the row on the axis and step by one; up from row 0 and down from the last row stay put; rows never wrap |
| `Cursor.ColumnsWrap` | index.js:117-132 | left and right keep the column on the axis; left from column 0 goes to the last column and right from the last column goes to 0; left-then-right and right-then-left both restore the column |
| `Cursor.DownSaturates` | index.js:100-104 | k presses of down from row r reach min(r + k, rows - 1) |
| `Cursor.UpSaturates` | index.js:134-137 | k presses of up from row r reach max(r - k, 0) |
| `Cursor.RightIsModular` | index.js:126-132 | k presses of right from column c reach (c + k) mod columns |
| `Cursor.LeftIsModular` | index.js:117-124 | k presses of left from column c reach (c - k) mod columns |
| `Pagination.WindowBounds` | index.js:156-166 | with at least one row, a positive page size and the cursor on the axis, the window satisfies 0 <= first <= row <= last <= rows - 1 and is min(pageSize, rows) wide; with fewer rows than a page it is [0, rows - 1] |
| `Pagination.FivePagesOfTwelve` | index.js:156-166 | with page size 5 and 12 rows, rows 0, 6 and 11 give the windows [0,4], [4,8] and [7,11] |
| `Projection.ResultHasEveryKey` | index.js:88-98 | the answer has the key `rowName_columnName` for every pair of row and column |
| `Projection.ResultHasOnlyCellKeys` | index.js:88-98 | every key of the answer is `rowName_columnName` for some cell |
| `Projection.RowEntriesKeys` | index.js:93-95 | one row's entries are keyed exactly by that row's name joined to each column name |
| `Projection.RowEntriesAvoid` | index.js:93-95 | a key that no column of a row produces is not among that row's entries |
| `Projection.RowEntriesLastWrite` | index.js:93-95 | within one row, a key holds the text of the last column that produces it |
| `Projection.LastWriteWins` | index.js:92-96 | a key holds the text ("" when unset) of the last cell, in row-major order, that produces it |
| `Projection.DistinctKeysComplete` | index.js:88-98 | when no two cells share a key, each cell's text ("" when unset) is found under its own key |
| `Projection.TwoByTwo` | index.js:88-98 | rows A, B and columns X, Y with only (A, Y) set to "7" give {A_X: "", A_Y: "7", B_X: "", B_Y: ""} |
| `Projection.CollidingNames` | index.js:94 | rows "a_b", "a" and columns "c", "b_c" give only three keys, and "a_b_c" holds the text of the second row's second cell |
| `Projection.AddTwoColumns` | index.js:93-95 | adding a row's entries over two columns writes the two keys in column order |
| `Projection.TwoRows` | index.js:92-96 | the answer over two rows is the first row's entries, overwritten by the second's |
| `Projection.ThreeRows` | index.js:92-96 | the answer over three rows is the rows' entries, each overwriting the ones before |
| `Decimal.Show` | index.js:185 | a row number is written as non-empty decimal digits with no leading zero |
| `Decimal.ParseShow` | index.js:185 | reading the decimal text back gives the number |
| `Session.StepKeepsInBounds` | index.js:47-66 | one keypress keeps the cursor on the grid; up and down keep the column and the grid, left and right keep the row and the grid, and typing or deleting keeps the cursor |
| `Session.RunKeepsInBounds` | index.js:47-66 | any sequence of keypresses that starts on the grid ends on the grid |
| `Session.EditsActLikeBuffer` | index.js:139-154 | typing and deleting change the cursor cell exactly as appending to and trimming a text buffer would; the cursor and all other cells are unchanged |
| `Rendering.CellLabelShape` | index.js:203-209 | the cursor cell is drawn "[ v ]" and every other cell "  v  "; only the cursor cell begins with '[' |
| `Rendering.VisibleRowsAre` | index.js:197-198 | of the rows seen so far, exactly those inside the window are drawn, in order |
| `Rendering.FrameMarksCursor` | index.js:197-221 | the frame draws the rows first..last, each with its name (highlighted only on the cursor row) and one cell per column showing its text; exactly one cell, the cursor cell, is bracketed, and it is on screen |
| `Rendering.HeadsMarkColumn` | index.js:183-193 | the column headings are all the column names, and only the cursor's column is highlighted |
| `Rendering.ErrorLineShown` | index.js:224-226 | the error line is empty exactly when there is no error; otherwise it shows the message after ">> " |
| `Prompt.TablePrompt.constructor` | index.js:19-29 | the cursor starts at (0, 0) with no values; a missing page size (0) becomes 5 |
| `Prompt.TablePrompt.GridToObject` | index.js:88-98 | the nested loops build exactly the answer map `ResultOf(rowNames, columnNames, grid)` |
| `Prompt.TablePrompt.GetCurrentValue` | index.js:78-81 | the answer for the current values, computed without changing any state |
| `Prompt.TablePrompt.Render` | index.js:168-228 | the loops build exactly the frame `FrameOf` of the current state and error message |
| `Prompt.TablePrompt.OnDownKey` | index.js:100-104 | only the row changes, to `Cursor.Down`, and the new state is drawn |
| `Prompt.TablePrompt.OnUpKey` | index.js:134-137 | only the row changes, to `Cursor.Up`, and the new state is drawn |
| `Prompt.TablePrompt.OnLeftKey` | index.js:117-124 | only the column changes, to `Cursor.Left`, and the new state is drawn |
| `Prompt.TablePrompt.OnRightKey` | index.js:126-132 | only the column changes, to `Cursor.Right`, and the new state is drawn |
| `Prompt.TablePrompt.HandleInput` | index.js:139-147 | only the values change, to `ValueGrid.Input` at the cursor, and the new state is drawn |
| `Prompt.TablePrompt.HandleDelete` | index.js:149-154 | only the values change, to `ValueGrid.Delete` at the cursor, and the new state is drawn |
| `Prompt.TablePrompt.HandleKeypress` | index.js:51-65 | the key name selects the handler; the new state is `Session.Step` of the old one, and the cursor stays on the grid |
| `Prompt.TablePrompt.OnError` | index.js:113-115 | a rejected answer only redraws, with the message as the error line; the cursor and values are unchanged |
| `Prompt.TablePrompt.OnLine` | index.js:41-45 | on enter, the validator receives the current answer; if it accepts, the session completes with that answer; if it rejects, the frame is redrawn with its message; neither path changes the cursor or the values |
| `Prompt.WalkThroughState` | index.js:117-147 | rows R1..R3 and columns C1, C2 with the keys right, "9", down, "x" leave the cursor at (1, 1), with "9" in (0, 1) and "x" in (1, 1) |
| `Prompt.WalkThroughAnswer` | index.js:88-98 | the answer after that walk-through is {R1_C1: "", R1_C2: "9", R2_C1: "", R2_C2: "x", R3_C1: "", R3_C2: ""} |
| `Prompt.ThreeByTwoAnswer` | index.js:88-98 | over rows R1..R3 and columns C1, C2, the answer holds the six keys, each with its own cell's text |

## Left out

- Event plumbing is not modelled: `observe(this.rl)`, the rxjs pipes,
  `handleSubmitEvents` and the `keypress.forEach` subscription. The dispatch
  switch is `HandleKeypress` over an event datatype, and submitting is
  `OnLine` with the validator as a function parameter.
- `onKeypress` comes from inquirer's base class, which is not part of this
  model.
- Terminal output is not modelled: `screen.render`, `screen.done` and the
  cursor show/hide calls. Handlers return the frame they would draw instead.
- Question text and instructions (`getQuestion`, the "(Press <enter> ...)"
  line) are not part of the frame, because `getQuestion` belongs to the base
  class.
- chalk colours are not modelled. A heading's highlight flag stands for its
  cyan/bold style, and the red ">> " is plain text.
- The cli-table box drawing is not modelled. A frame keeps the table's
  heading, rows and cells as data rather than drawn text.
- inquirer's `Choices` objects are not modelled. The axes are plain
  sequences of names, with `realLength` equal to their length and no
  separators.
- In JavaScript, a key with no character value appends the text
  "undefined". The model treats every typed value as a string.
- `HandleDelete` removes one Dafny character. JavaScript's `substring`
  removes one UTF-16 code unit, so the two differ for characters outside the
  Basic Multilingual Plane.
- Page-size values that JavaScript treats as false (0, `undefined`, `NaN`)
  are all modelled by 0, meaning "use 5". A negative page size is not
  accepted.
- `Prompt.TablePrompt.constructor` requires non-empty axes, which the source
  does not check. With no columns, the left key would move to column -1.
- Inquirer's asynchronous validation and the `done` callback are not
  modelled. Accepting yields the current answer, rejecting yields a redraw,
  and an empty rejection message (a validator returning `false`) shows no
  error line.
- `Projection.ResultOf` is a Dafny map, while the source writes into a plain JavaScript object.
  Two consequences are not modelled. First, a key equal to "__proto__" (row "_" with column
  "proto__", say) goes to the inherited prototype setter, which ignores a string, so JavaScript's
  answer lacks that key while `ResultOf` and `Projection.ResultHasEveryKey` include it. Second,
  JavaScript keeps the insertion order of keys, and a Dafny map has no order.
- The `dimenArr &&` null check in `dimen2ArrToObj` is not modelled, because
  the grid is always present.
