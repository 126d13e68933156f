# Wildberries acts generator — verified model of the extraction and act composition

The program turns a Wildberries spreadsheet export into two Russian business
documents per sheet (one sheet = one month): an *акт приема-передачи*
(acceptance act: a table of the goods) and an *акт выполненных услуг*
(services act: the number of positions and the totals of the monetary
columns). It has two hosts that carry their own copy of the same logic: a
Flask web application (`app.py`) and a tkinter desktop application
(`gui_app.py`).

This Dafny project models that logic and proves what it does:

- `wrappers.dfy` — `Option` and `Result`.
- `cells.dfy` (module `Cells`) — spreadsheet cell values as a tagged
  datatype, plus the Python built-ins the program applies to them:
  - truthiness;
  - dictionary-key identity (`1`, `1.0` and `True` are one key);
  - `str(...)`;
  - `.lower()`;
  - substring `in`;
  - decimal rendering, with its inverse.
- `extraction.dfy` (module `Extraction`) — `parse_xlsx_file`.
  - Specification functions: `RecordOf`, `Records`, `ExtractSheet` and `ExtractWorkbook`.
  - The loops as imperative methods proved equal to those functions: `BuildRowDict`, `ParseSheet` and `ParseXlsxFile`.
  - Lemmas for the extraction rules.
  - A `Host` flag selects the one difference between the hosts: the web host keeps sheets without records, the desktop host drops them.
- `acts.dfy` (module `Acts`) — the two generators.
  - The document is the list of blocks python-docx is asked to add, in order: heading, paragraph, table of strings, and a total line.
  - Specification functions: `AcceptanceAct` and `ServicesAct`.
  - Imperative composers proved equal to them.
  - Lemmas for the table shape, the 100-row cap, the placeholder, the monetary columns, the 3-total cap and the sums.
- `web_app.dfy` (module `WebApp`) — `allowed_file`, and the decision inside the `/generate/<doc_type>/<month>` handler: which error, or which act under which file name.
- `gui_app.dfy` (module `GuiApp`) — the `WildberriesActsGenerator` state.
  - A class with the fields `currentFile` and `monthsData`.
  - `SelectFile`, `LoadFile` and `GenerateDocument` update or read those fields.
- `scenario.dfy` (module `Scenario`) — a worked example: the sheet "Январь" (headers Товар/Цена; rows ("Шапка", 500) and ("Шарф", None)), followed through extraction and both acts.

The clock is a parameter. The act date is a `Date`; the file-name timestamp is a string.
Reading the workbook is also a parameter: a sheet is given as its name and its rows of cell values.

Behaviour of the code the model follows:

- Empty sheets: the web host keeps sheets with no records (`app.py:48-51`). The desktop host drops them (`gui_app.py:224-228`). Both are modelled, through `Host`.
- The `headers` list keeps the raw header cells, blanks included. The synthetic `Column_{j}` label is used only as the record key (`app.py:39`, `app.py:45`). So a record's keys are not a subset of `headers`.
- The desktop acceptance act for a sheet without records prints no placeholder (`gui_app.py:370`). The services act never prints one.
- The totals section is also omitted when the sheet has monetary columns but no records (`app.py:142`).

## Model

| member | source | states |
|---|---|---|
| `Cells.KeyOf` | app.py:45 | a text cell is a string key; an int, float or bool cell is the numeric key of its value, so 1, 1.0 and True collide as dict keys do |
| `Cells.NatToStringRoundTrip` | app.py:134 | the decimal text of a count reads back as that count |
| `Cells.ColumnNameInjective` | app.py:45 | distinct positions give distinct `Column_{j}` labels |
| `Cells.ContainsIff` | app.py:139 | `keyword in text` holds exactly when the keyword occurs at some position of the text |
| `Extraction.RecordKeys` | app.py:43-45 | a record's keys are exactly the keys of the columns j < min(len(row), len(headers)); so it has at most min(len(row), len(headers)) keys |
| `Extraction.RecordPrefixValue` | app.py:43-45 | after the first k cells, column j's key holds cell j when no later visited column shares that key |
| `Extraction.RecordLastWriterWins` | app.py:43-45 | a key holds the cell of the last in-range column carrying it (a later column with the same label overwrites an earlier one) |
| `Extraction.LastColumnWithKey` | app.py:43-45 | every key of a record comes from the last in-range column carrying it, and holds that column's cell |
| `Extraction.BlankHeadersHaveDistinctKeys` | app.py:45 | a header row of blank labels gives pairwise distinct `Column_{j}` keys |
| `Extraction.RecordsAppend` | app.py:37-46 | records are collected row by row, in source order: extraction distributes over concatenation of row lists |
| `Extraction.BlankRowVanishes` | app.py:41 | a row whose cells are all None contributes nothing, wherever it sits |
| `Extraction.ValueRowYieldsOneRecord` | app.py:41-46 | a row with some non-None cell contributes exactly one record, in its own place |
| `Extraction.NoRecordsIffAllBlank` | app.py:37-46 | a sheet has no records exactly when every row after the header row is blank |
| `Extraction.OverflowOnlyRowKeptEmpty` | app.py:41-46 | a row whose only values lie beyond the header count is still kept, and its record holds only None |
| `Extraction.LookupAt` | app.py:236-244 | in a dictionary (distinct names), `months_data[name]` of entry i's name is entry i's content |
| `Extraction.LookupMissing` | app.py:236-237 | a month lookup fails exactly when no entry has that name |
| `Extraction.LookupFound` | gui_app.py:325 | a successful lookup returns the content of an entry with that name |
| `Extraction.PutThenLookup` | app.py:48-51 | after `months_data[name] = content`, name maps to content and other names are unaffected |
| `Extraction.PutFresh` | app.py:48-51 | assigning a new sheet name appends it after the existing entries |
| `Extraction.PutEntries` | app.py:48-51 | assignment adds no entry except the assigned one, and keeps names distinct |
| `Extraction.ExtractedNamesDistinct` | app.py:30-51 | the extracted workbook is a dictionary: no sheet name twice |
| `Extraction.ExtractedNamesFromSheets` | app.py:30-51 | every extracted entry is named after a sheet of the workbook |
| `Extraction.WebKeepsEverySheet` | app.py:30-51 | on the web host, entry i is sheet i (name and extracted table), for every sheet, records or not |
| `Extraction.WebLookupSheet` | app.py:30-51 | on the web host, every sheet's name finds that sheet's extracted table |
| `Extraction.EmptySheetHasNoHeaders` | app.py:34-51 | a sheet with no rows has empty headers and no data |
| `Extraction.DesktopKeepsOnlySheetsWithData` | gui_app.py:224-228 | on the desktop, every retained sheet has at least one record |
| `Extraction.SheetsWithDataSnoc` | gui_app.py:224-228 | the sheets with data of a workbook extended by one sheet: that sheet is added only if it has records |
| `Extraction.DesktopKeepsSheetsWithDataInOrder` | gui_app.py:201-231 | on the desktop, the result is exactly the sheets that have records, in workbook order |
| `Extraction.BuildRowDict` | app.py:42-45 | the loop over the cells builds exactly the record of the row |
| `Extraction.ParseSheet` | app.py:34-46 | the loop over the rows yields the header row and the records of the non-blank rows |
| `Extraction.ParseXlsxFile` | app.py:25-54 | the loop over the sheets yields the extracted workbook of the host (web keeps empty sheets; the desktop copy at gui_app.py:201-231 drops them) |
| `Acts.FormatDateRoundTrip` | app.py:67 | a calendar date with a four-digit year prints as DD.MM.YYYY: ten characters, dots at 2 and 5, and the fields read back |
| `Acts.AcceptanceTableShape` | app.py:75-96 | with records the act holds exactly one table and no placeholder. The table has len(headers) columns and 1 + min(100, len(data)) rows; the header row shows str(header) or `Колонка {i+1}`; data row r shows the cells of record r |
| `Acts.AcceptanceWithoutData` | app.py:97-98 | without records there is no table; the web act prints exactly one placeholder between the narrative and the signatures, the desktop act (gui_app.py:370) prints nothing there |
| `Acts.CellShowsParsedCell` | app.py:93-96 | when no two columns share a key, cell i of the acceptance row shows str of the parsed row's cell i, or '' for None or a cell the row does not reach: the lookup uses the parser's key |
| `Acts.SharedKeyShowsLaterColumn` | app.py:94-96 | when columns i < j share a label, both cells show column j's value |
| `Acts.MonetaryColumnsAppend` | app.py:137-140 | monetary columns are collected in header order |
| `Acts.MonetaryColumnsMembers` | app.py:137-140 | a header is a price column exactly when it is truthy and its lower-cased text contains one of the five keywords |
| `Acts.ColumnTotalAppend` | app.py:147-151 | a column total adds up record by record over all records |
| `Acts.ColumnTotalIgnoresNonNumbers` | app.py:149-151 | every falsy value (None, '', 0, 0.0, False, a missing key) and every non-number (text, numeric-looking or not, and dates) adds nothing, as `value and isinstance(value, (int, float))` skips them |
| `Acts.ColumnTotalOfInts` | app.py:147-151 | a column of int values totals their sum |
| `Acts.ServicesCountUncapped` | app.py:132-134 | the count line follows the opening and reads back as len(data), with no 100 cap |
| `Acts.ServicesTotals` | app.py:142-152 | with monetary columns and records, one breakdown heading and one total per monetary column for the first three. Each total is the column's sum over all records. Otherwise there is neither heading nor total |
| `Acts.BreakdownCounts` | app.py:142-152 | the breakdown section is a heading plus min(3, n) totals, or empty |
| `Acts.ActsOpenAndClose` | gui_app.py:354-450 | both acts open with the title, `Месяц: {month}` and `Дата составления: DD.MM.YYYY`. They close with two signature blocks: transferring then receiving party, or performer then client |
| `Acts.FillDataRow` | app.py:92-96 | the loop over the headers fills one table row with the acceptance cell texts |
| `Acts.FillAcceptanceTable` | app.py:78-96 | the header row, then one row per record for the first 100 records |
| `Acts.ComposeAcceptanceAct` | app.py:57-111 | appending blocks step by step produces the acceptance act of the host (gui_app.py:354-399 for the desktop) |
| `Acts.FindPriceColumns` | app.py:137-140 | the loop collects exactly the monetary headers, in order |
| `Acts.SumColumn` | app.py:147-151 | the accumulation loop computes the column total |
| `Acts.AddTotalLines` | app.py:146-152 | one total line per selected column, in order, appended to the document |
| `Acts.ComposeServicesAct` | app.py:114-172 | appending blocks step by step produces the services act |
| `WebApp.LastDot` | app.py:22 | the position found holds a '.' with no '.' after it, and none is found only when there is no '.' |
| `WebApp.AllowedFileIff` | app.py:21-22 | an upload name is accepted exactly when it contains a '.' and the text after its last '.' lower-cases to "xlsx"; a name without a '.' is rejected |
| `WebApp.GenerateDocumentOutcome` | app.py:224-248 | checks run in order: no upload, then unknown month, then unknown document type, each error exactly in its case. On success the file is `{doc_type}_{month}_{timestamp}.docx` and holds the act of that type for that month |
| `WebApp.EverySheetCanBeGenerated` | app.py:236-246 | every sheet of the upload, records or not, renders as either act of its own extracted table |
| `GuiApp.ActsGenerator.constructor` | gui_app.py:24-26 | no file chosen and no months loaded |
| `GuiApp.ActsGenerator.LoadFile` | gui_app.py:172-199 | a readable workbook replaces the months with its sheets that have records, and reports a warning when there are none; an unreadable one leaves them unchanged. Every loaded month has records and a distinct name |
| `GuiApp.ActsGenerator.SelectFile` | gui_app.py:160-170 | a cancelled dialog changes nothing; a chosen file becomes current and is loaded |
| `GuiApp.ActsGenerator.GenerateDocument` | gui_app.py:311-330 | succeeds exactly for a loaded month. The file is `Акт_приема_передачи_…` for 'acceptance' and `Акт_услуг_…` for any other type; the act is the acceptance act or the services act accordingly. Since every loaded month has records, an acceptance act always holds one table and no placeholder |
| `GuiApp.LoadedAcceptanceActHasTable` | gui_app.py:370-389 | for every month the desktop can show, the acceptance act holds exactly one table and no placeholder |
| `Scenario.FirstCharAbsent` | app.py:139 | a keyword whose first letter does not occur in a header is not contained in it |
| `Scenario.JanuaryExtraction` | app.py:37-51 | the "Январь" sheet keeps both rows, keyed Товар and Цена, on both hosts; the result is the "Январь" table used by the two lemmas below |
| `Scenario.JanuaryMonetaryColumns` | app.py:137-140 | of Товар and Цена only Цена is a price column |
| `Scenario.JanuaryAcceptance` | app.py:75-96 | the "Январь" table gives a 3-row acceptance table [Товар, Цена] / [Шапка, 500] / [Шарф, ''] |
| `Scenario.JanuaryPriceTotal` | app.py:146-150 | summing Цена over the "Январь" records gives 500: the integer 500 is added, the None price is skipped |
| `Scenario.JanuaryServices` | app.py:132-152 | the "Январь" table gives a count of 2 and one total, 500 for Цена, with the None cell adding nothing |

## Left out

- Reading the workbook. The model takes each sheet as its name and its rows of cell values. Left out of that step:
  - openpyxl itself;
  - formula evaluation (`data_only=True`);
  - closing the workbook;
  - how a file that fails to open is detected.
- Writing the document. Left out: python-docx itself, styles, bold header runs, alignment and `doc.save`. The document is the ordered list of blocks added.
- Acts.ServicesTotals: a total is a `Total(column, amount)` block with the exact sum as a real. The text `f'{col}: {total:,.2f} руб.'` and its rounding to two decimals are not modelled. Float addition is modelled as exact.
- Floats: `str(float)` is not computed. A float cell carries the text Python prints for it. NaN and infinities are not modelled.
- Date cells:
  - a date cell is a `datetime` with no microseconds;
  - `date` and `time` cells are not modelled;
  - `%Y` is printed with four digits (years below 1000 are padded);
  - `FormatDateRoundTrip` assumes a four-digit year.
- Lower-casing covers ASCII and Cyrillic capitals U+0400–U+042F only. Of the other characters, only two lower-case to an ASCII or Cyrillic letter. U+212A (Kelvin sign) becomes "k", which is in no keyword and not in "xlsx". U+0130 (İ) becomes "i" followed by the combining U+0307. That "i" is always followed by U+0307, so "price" can never match across it. So the model is exact for the five keywords and for "xlsx".
- Dictionary key order within a record is not modelled. Records are maps. The only consumer of the order is the JSON dump.
- The web JSON dump and reload between upload and generation (app.py:207-211, 233-234) are not modelled. `WebApp.GenerateDocument` works on the extracted workbook before serialisation. That serialisation is lossy: dates become text, and numeric or bool headers become string keys, so their acceptance cells render blank after the reload. It can also fail: a datetime header on a sheet with records is a dict key, `default=str` is not applied to keys, and `json.dump` raises TypeError. The upload then answers 500 (app.py:211, 218-219), so `WebApp.EverySheetCanBeGenerated` has no web counterpart for such a workbook.
- Flask itself:
  - the routes and the session;
  - `upload_file`'s other checks (missing file, empty name) and `secure_filename`;
  - `send_file`;
  - the 500 handlers that wrap exceptions.
- tkinter: the window, cards and message boxes, and opening the result with `os.startfile` or `os.system`. `LoadFile` reports a `LoadStatus` instead of showing a message box. An unreadable file is passed in as `None`.
- `start.py` (installation script) and `desktop_app.py` (Flask on a thread plus a webview window) are not part of this model.
- Both generators add the table first and then fill its rows. The model builds the rows first and then adds the finished table. Nothing observes the difference.
