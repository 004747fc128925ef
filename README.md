# Household order list: verified model of the table logic

The page `main.py` keeps a household shopping list ("Ordine Casa") in a
Google Sheet with four columns: `ID`, `Prodotto` (what is needed), `Data`
(by when) and `Consegnato` (delivered). Every run of the page reads the
whole sheet and normalises it (`carica_dati`). The sidebar form can append
one order. Each line gets a check box, and ticking one writes the whole
table back. This project models that table logic in Dafny and proves what
it guarantees.

Modules:

- `Wrappers` (`wrappers.dfy`): `Option` and `Result`.
- `Dates` (`dates.dfy`): calendar dates as Python's `date` holds them
  (a subset type of valid Gregorian dates, years 1 to 9999), their order,
  and the ISO 8601 calendar-date extended form `YYYY-MM-DD`
  (section 5.2.1.1 of ISO 8601:2004). `strftime('%Y-%m-%d')` writes a new
  order's date in that form, and the next load parses it back.
- `Text` (`text.dfy`): Python's `str.strip()` over the characters
  `str.isspace()` accepts, and Python's code-point order on strings.
- `Rows` (`rows.dfy`): a loaded line `Row(id, prodotto, data, consegnato)`,
  the `(Data, Prodotto)` sort key with `NaT` last, and the stable sort
  pandas applies when it sorts on two columns.
- `Sheets` (`sheets.dfy`): the sheet as the store holds it (a header of
  column names and raw cells), `Load` (`carica_dati`), and `Serialize`
  (what `conn.update` puts in the store).
- `App` (`page.dfy`): class `Page` holds one run of the script. Its fields
  are the store, `df_raw` (`rows`) and a count of store writes. Its methods
  are the add branch, the check-box update in `render_row`, the loop over
  the lines, and the run as a whole.

The connection to the sheet is modelled as a `store: Sheet` field that
each write replaces as a whole. `st.rerun()` is modelled as a `rerun`
result that ends the run. The date chosen in the form and the values the
check boxes show are parameters.

The model follows the code as written, including where it departs from
what a list of orders might be expected to do:

- a new order's id is `len(df_raw) + 1`, not the largest id plus one;
- an order is rejected only when its name is the empty string, so a name
  of blanks is accepted;
- `carica_dati` does sort, by `Data` then `Prodotto`;
- a toggle addresses the line being drawn, not an id;
- there is no "clear completed" action, bucket classification or search
  in this file.

`render_row` is called with the DataFrame's index label, and
`df_raw.at[idx, 'Consegnato']` writes the line with that label. That is the
line being drawn, so the model addresses it by its position in the loaded
table.

In pandas 1.x and 2.x, `pd.to_datetime` parses text into nanosecond
`Timestamp`s, and the model assumes one of those versions. The model therefore reads a
date only when it lies between 1677-09-22 and 2262-04-11 (`InTimestampRange`).
Any other date is a `MalformedDate` load error. So the date round trip is
proved for dates in that range. The form's date picker only offers dates
within ten years of today, well inside it.

## Model

| member | source | states |
|---|---|---|
| `Dates.ParseIso` | main.py:26 | a date is read only from text of the `YYYY-MM-DD` shape, and what is read is always a real calendar date (by its type) |
| `Dates.FormatIso` | main.py:47 | `strftime('%Y-%m-%d')` gives ten characters with `-` at positions 4 and 7 |
| `Dates.ParseFormatted` | main.py:47 | a date written as `YYYY-MM-DD` is parsed back as the same calendar date |
| `Dates.FormatParsed` | main.py:26 | any text the parser accepts is exactly how the parsed date is written: one spelling per date |
| `Text.SkipSpaceForward` | main.py:23 | the left scan of `strip()` passes only whitespace and stops at the first character that is not whitespace |
| `Text.SkipSpaceBackward` | main.py:23 | the right scan of `strip()` passes only whitespace, never crosses the left scan's stop, and stops after the last character that is not whitespace |
| `Text.Strip` | main.py:23 | the stripped name has no whitespace at either end and is no longer than before |
| `Text.StripRemovesSpaceOnly` | main.py:23 | the stripped name is a contiguous part of the original, and everything removed before and after it is whitespace |
| `Text.StripIdempotent` | main.py:23 | stripping twice is stripping once |
| `Text.StripAll` | main.py:23 | the trimmed column list has the same length, and no name in it has whitespace at either end |
| `Text.StripAllIdempotent` | main.py:23 | trimming the column names again changes nothing |
| `Text.StripPadded` | main.py:23 | a non-empty name with whitespace before and after it strips to exactly the bare name |
| `Text.PaddedNameFound` | main.py:23 | a column whose header is a name padded with whitespace, such as `" Data "`, is found under the bare name after trimming |
| `Text.StrippedNameFound` | main.py:23 | a column named without surrounding whitespace is found under that name after trimming |
| `Text.TextLeTotal` | main.py:31 | any two product names are comparable |
| `Text.TextLeTransitive` | main.py:31 | the product-name order is transitive |
| `Rows.KeyLeTotal` | main.py:31 | any two lines are comparable by `(Data, Prodotto)` |
| `Rows.KeyLeTransitive` | main.py:31 | the `(Data, Prodotto)` order, with `NaT` after every date, is transitive |
| `Rows.SortRows` | main.py:31 | the sort keeps the number of lines; its order and permutation are stated by `Rows.SortRowsCorrect` and its stability by `Rows.SortRowsStable` |
| `Rows.SortRowsCorrect` | main.py:31 | the sort returns a permutation of its input that is in `(Data, Prodotto)` order |
| `Rows.SortRowsSorted` | main.py:31 | sorting lines already in order leaves them exactly as they are |
| `Rows.SortRowsStable` | main.py:31 | the sort is stable: the lines sharing any one `(Data, Prodotto)` key come out in the order the sheet had them |
| `Rows.InsertKeepsTies` | main.py:31 | inserting a line puts it before every line with the same `(Data, Prodotto)` key |
| `Rows.SortedPairwise` | main.py:31 | in a sorted table every line may precede every later line, not only the next one |
| `Sheets.ReadDay` | main.py:26 | a missing or empty `Data` cell becomes `NaT`; a date comes only from `YYYY-MM-DD` text that parses to it and lies in the `Timestamp` range; the cell is refused exactly when it is a boolean, a number, or non-empty text that is not such a date |
| `Sheets.Delivered` | main.py:29 | a blank `Consegnato` cell becomes `false`; a boolean cell keeps its value |
| `Sheets.FirstMalformed` | main.py:26 | the position of the first `Data` cell that cannot be read: every earlier cell is readable and this one is not |
| `Sheets.NormaliseAll` | main.py:25-29 | each line keeps its `ID` and `Prodotto`, its `Data` is the read date, and a blank `Consegnato` is `false` |
| `Sheets.Load` | main.py:20-31 | a successful load has one line per sheet line; when it fails and what it returns are stated by `Sheets.LoadFails` and `Sheets.LoadSorts` |
| `Sheets.LoadFails` | main.py:25-31 | the load succeeds if and only if `Data` and `Prodotto` are present after trimming and every `Data` cell is readable; which error a failing load returns: a missing `Data` column first; with `Data` present, `MalformedDate` at the first unreadable `Data` cell; with every date readable, a missing `Prodotto` column |
| `Sheets.BadDateFailsLoad` | main.py:26 | a `Data` cell that is a boolean, a number or unparseable text fails the load with a `MalformedDate` at or before its line, never a blank date |
| `Sheets.LoadSorts` | main.py:31 | a successful load returns exactly the sheet's normalised lines, as a permutation, sorted by `(Data, Prodotto)` |
| `Sheets.LoadFillsMissing` | main.py:28-29 | every line with a blank `Consegnato` cell appears in the loaded table with `consegnato == false` |
| `Sheets.LoadReadable` | main.py:26 | every date a load returns can be written and read again |
| `Sheets.Encode` | main.py:52 | a written line keeps its `ID`, `Prodotto` and flag, and its `Data` cell is blank exactly when the date is `NaT`; that the date reads back is stated by `Sheets.ReadEncodedDay` |
| `Sheets.Serialize` | main.py:74 | a write replaces the sheet with the four-column header and one raw line per table line |
| `Sheets.HeaderFound` | main.py:23 | the columns a write puts in the sheet are found by the next load's trimmed lookup |
| `Sheets.ReadEncodedDay` | main.py:47 | a line's `Data` as written reads back as the same `Data` (`NaT` as a blank cell and back) |
| `Sheets.ReadBack` | main.py:74 | loading a written table gives back the same lines in sorted order |
| `Sheets.ReadBackSorted` | main.py:74 | a table already in load order is read back exactly as it was written |
| `App.AddOrder` | main.py:43-51 | empty name: rejected; otherwise one more line, the first `n` unchanged, and the last `Row(n + 1, name, date, false)` |
| `App.ToggleOrder` | main.py:72-73 | no change when the box shows the flag; otherwise the same length, line `idx` with only `consegnato` set to the box, and every other line unchanged |
| `App.FirstChange` | main.py:78-80 | the first line whose box differs from its flag: all earlier boxes match their flags |
| `App.ToggleKeepsOrder` | main.py:73 | setting a flag keeps a sorted table sorted and its dates readable |
| `App.ReloadAfterToggle` | main.py:72-75 | after a toggle the next load shows exactly the table that was written |
| `App.ReloadAfterAdd` | main.py:44-54 | after an add the next load shows the old lines and the new order, each once, sorted, with the date from the form |
| `App.AddKeepsIdsOneToN` | main.py:45 | numbering by `len + 1` keeps ids `1..n` distinct when they were so before |
| `App.AddCanRepeatId` | main.py:45 | when ids are not `1..n`, `len + 1` can repeat an id already in use |
| `App.Page.constructor` | main.py:20-33 | the run starts from a successful load: `rows` is the loaded table, sorted, and nothing has been written |
| `App.Page.Add` | main.py:42-54 | empty name: no write and the store is unchanged; otherwise exactly one write of the table with the new order appended; `rows` unchanged |
| `App.Page.Toggle` | main.py:72-75 | same value: nothing changes and nothing is written; different value: the flag is set, the whole table is written once, and reloading it gives the same table |
| `App.Page.RenderRows` | main.py:78-80 | only the first line whose box differs is updated and written, then the run ends; with no difference nothing is written |
| `App.Page.Run` | main.py:33-80 | a run writes the store at most once; a successful add ends it before any line is drawn |

## Left out

- The Streamlit page: layout, title, widgets, the form, the success banner, the struck-through labels and captions. These are display only.
- The connection's `read` and `update` as network calls, including the unused read at main.py:18. The store is a field that each write replaces.
- A run whose load fails: pandas raises and the page shows the error. `App.Page.constructor` starts only from a successful load; the failure itself is stated by `Sheets.LoadFails`.
- `date.today()`: the form's date and the check-box values are parameters.
- Sessions that write the sheet at the same time can lose each other's updates. This is concurrency in the external store, not logic in this file.
- `Sheets.ReadDay`: accepts only `YYYY-MM-DD` text. The other spellings `pd.to_datetime` understands (`2024/01/05`, time parts, numbers taken as nanoseconds since 1970) become `MalformedDate` in the model, because pandas' general date parser is foreign library code.
- `Sheets.Delivered`: for text and whole-number cells it uses Python truthiness. Float cells and other object kinds `astype(bool)` could meet are not modelled.
- A sheet with no `Consegnato` column. The source then leaves the column absent, and `render_row` fails on `row['Consegnato']`. The model reads every flag as `false`.
- `ID` and `Prodotto` cells are read as an integer and a text. Blank or mistyped cells in those columns, and where pandas would sort a blank `Prodotto`, are not modelled.
- Columns beyond the four the page uses, and duplicate column names after trimming. The model's lines carry only the four columns.
- `Sheets.Serialize`: a write puts the four columns `ID`, `Prodotto`, `Data`, `Consegnato` in this fixed order. The source writes the sheet's own trimmed columns in the order the sheet had them. The toggle write (main.py:74) writes exactly those columns, so a sheet with no `ID` column gets none back. The add write (main.py:51-52) concatenates the new line, which also adds any of the four columns the sheet lacked after the sheet's own, blank for the old lines.
- Read caching in the Google Sheets connection. `conn.read` at main.py:22 is given no cache lifetime, and whether it returns a cached copy is library behaviour. The model assumes every read returns the sheet as last written; `App.ReloadAfterToggle`, `App.ReloadAfterAdd` and `App.Page.Toggle` rely on this.
- `strftime('%Y')` may leave years before 1000 unpadded on some platforms. This changes nothing in the model: such dates are outside the range the load reads.
