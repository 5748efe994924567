# Fleet status report: filter, classifier and sheet renderer

A Dafny model of the decision logic in `EnvioMain.py`, the script that builds a periodic
fleet-status workbook from live GPS telemetry. The model covers three parts of `main()`:

1. **Exclusion set** (`Exclusion`). A fixed list of non-fleet address ids is united with
   the ids of the addresses attached to a tag. An address record whose `id` is missing,
   null or empty contributes nothing. A failed request, or a body whose `data` or
   `addresses` is JSON null, is the script's fatal exit, modelled as `None`.
2. **Record filter and classifier** (`Telemetry`, on top of `Filtering`). Each vehicle
   record passes the staleness gate (a present, non-empty timestamp more than one hour
   before now), then the exclusion gate (address id in the set), then the noise gate
   (speed 0 without the ECU flag). A surviving record becomes one row: `DETENIDO` for
   zero speed with the ECU flag, `RUTA` otherwise; the geocoded place or the
   `"Lat: …, Lon: …"` fallback; the vehicle name or `"Sin nombre"`. A record whose
   handling raises is dropped on its own. `Process` is the loop; `Report` is its
   specification, a keep-and-transform over the records.
3. **Sheet rendering** (`Worksheet`). A `Sheet` class holds the template's active sheet
   as a map from (row, column) to a cell (value, border flag, fill, font) and a set of
   merged ranges. `Render` removes every merge starting at row 7 or below, writes the
   date and time into C2 and F2, writes one row per result from row 7 down (unit in
   column 1; columns 2–8 merged with the location in column 2; a border on columns
   1–9; the status in column 9, red for `DETENIDO` and green otherwise), and writes
   `=COUNTA(A7:A<6+n>)` into H2. Its postcondition fixes every cell of the result
   through the function `Rendered`, so rendering the same results over the same
   template always yields the same cells. A cell stores at most 32,767 characters of
   the text it is given (`Clip`). openpyxl raises when text goes to a cell that a
   merge hides, or contains a control character other than tab, line feed and
   carriage return; it also refuses a row past 1,048,576, the last row of a sheet.
   `Fits` is the condition under which rendering raises none of these.

`Pipeline.Run` chains the three parts in the order of `main()`. It ends in one of three
ways: the exclusion step's fatal exit, an error raised by the sheet (no report is saved),
or the rendered sheet.

JSON lookups are modelled with `Field<T> = Absent | Null | Present(value)`, because
Python's `d.get(k, default)` returns the default only for a missing key, and a JSON null
for a present null. This gives the following behaviour of the code, which the model keeps:

- a `gps`, `address` or `reverseGeo` object that is JSON null makes the record raise,
  so it is dropped;
- a timestamp that is present but does not parse also drops the record; an empty
  timestamp skips the staleness gate like a missing one;
- a null speed is not zero, so the record is reported as `RUTA`; a null ECU flag counts
  as false;
- the `"Sin nombre"` default applies only when `name` is missing. A null name gives a
  row with no unit value, and then the unit cell keeps its previous content, because
  `ws.cell(..., value=None)` does not write;
- columns 3–8 of a data row are empty because merging replaces the covered cells by
  empty placeholders, not because of the `None` written to them;
- with no rows the formula is `=COUNTA(A7:A6)`. Its range runs backwards into
  row 6, so it does not necessarily evaluate to 0 (`EmptyReportFormula`).

Timestamps are integer seconds. The timestamp parser is a parameter of the run
(`Context.parse`), and so are the current time and the date and time strings.

## Model

| member | source | states |
|---|---|---|
| `Exclusion.FetchedIds` | EnvioMain.py:127-130 | an id is collected iff some fetched address record carries it as a truthy (present, non-null, non-empty) id; the empty id never is |
| `Exclusion.Build` | EnvioMain.py:117-134 | the step fails (fatal exit) iff the request fails or `data`/`addresses` is null; otherwise an id is excluded iff it is predefined or carried as a truthy id by a listed record |
| `Telemetry.ClassifyGates` | EnvioMain.py:154-176 | a stale record, an excluded address and zero speed without ECU each give no row whatever else holds; a row exists iff no gate drops the record and nothing raises; status is DETENIDO iff speed is 0 and the ECU flag is true, so any zero-speed row is DETENIDO and every nonzero speed is RUTA; location is the non-empty geocoded text or the `Lat: …, Lon: …` fallback; unit is the name or `Sin nombre` |
| `Telemetry.UntimedIgnoresClock` | EnvioMain.py:156-160 | a record without a non-empty timestamp is classified the same for every clock and parser: the staleness gate never drops it |
| `Telemetry.UnaddressedIgnoresExclusion` | EnvioMain.py:161-162 | a record without an address id is classified the same for every exclusion set |
| `Telemetry.PlaceFallback` | EnvioMain.py:168-169 | a location is never empty; a non-empty geocoded text is used whatever the coordinates; a missing, null or empty one gives the same fallback `Lat: <latitude>, Lon: <longitude>`, with None for a missing or null coordinate |
| `Telemetry.ReportIsOrderedSubsequence` | EnvioMain.py:151-176 | row k is the classification of record `Origins[k]`, those record indices strictly increase, and a record has a row iff the classifier accepts it |
| `Telemetry.DroppedRecordIsInvisible` | EnvioMain.py:153-176 | removing a record that is dropped (by a gate or an exception) leaves the rows of the others unchanged: processing continues past it |
| `Telemetry.Process` | EnvioMain.py:150-176 | the loop's results are exactly the report of the records, in input order |
| `Telemetry.ExclusionAndNoiseScenario` | EnvioMain.py:161-174 | with X1 excluded, records X1 (moving), X2 (zero speed, ECU) and X3 (zero speed, no ECU) give the single DETENIDO row for X2 |
| `Telemetry.StaleScenario` | EnvioMain.py:156-160 | a record two hours old is dropped although it is moving |
| `Filtering.FilterMap` | EnvioMain.py:151-174 | each record yields at most one row |
| `Filtering.Origins` | EnvioMain.py:151-174 | each row has a source index within the records |
| `Filtering.OrderedSubsequence` | EnvioMain.py:151-176 | the rows are the accepted records' outputs at strictly increasing source indices, and a record has a row iff it is accepted |
| `Filtering.FilterMapAppend` | EnvioMain.py:153-176 | the rows of a concatenation are the rows of each part, concatenated |
| `Decimal.Show` | EnvioMain.py:225 | the decimal text of a row number is non-empty, all digits, without a leading zero |
| `Decimal.ReadShow` | EnvioMain.py:225 | the decimal text reads back as the number it was made from |
| `Worksheet.CountFormula` | EnvioMain.py:224-225 | the formula starts `=COUNTA(A7:A`, ends with `)`, and between them is the decimal text, without a leading zero, of `6 + n`, the last data row |
| `Worksheet.FormulaLegal` | EnvioMain.py:225 | the count formula holds no character a cell refuses |
| `Worksheet.EmptyReportFormula` | EnvioMain.py:224-225 | with zero rows the formula is `=COUNTA(A7:A6)` |
| `Worksheet.PlaceMerges` | EnvioMain.py:208 | holds exactly the column 2–8 merges of the first n data rows |
| `Worksheet.Unhidden` | EnvioMain.py:186 | the cells a range hides become empty, every other cell is kept |
| `Worksheet.Sheet.constructor` | EnvioMain.py:179-180 | the sheet starts as the template's cells and merges |
| `Worksheet.Clip` | EnvioMain.py:189-190 | the text a cell stores is the given text when it fits, and otherwise its first 32,767 characters |
| `Worksheet.LabelLegal` | EnvioMain.py:214 | both status labels are legal cell text and are stored whole |
| `Worksheet.Sheet.Put` | EnvioMain.py:204-212 | needs a row within the sheet, and a cell no merge hides and legal text when there is a value; writing a value changes only that cell's value, to the clipped text; writing None changes nothing |
| `Worksheet.Sheet.Assign` | EnvioMain.py:189-190 | needs a row within the sheet, a cell no merge hides and legal text; sets only that cell's value, to the clipped text |
| `Worksheet.Sheet.Frame` | EnvioMain.py:205 | setting the border changes only that cell's border |
| `Worksheet.Sheet.Style` | EnvioMain.py:216-221 | setting fill and font changes only those of that cell |
| `Worksheet.Sheet.Merge` | EnvioMain.py:208 | adds the range to the merges and empties the cells it hides |
| `Worksheet.Sheet.Unmerge` | EnvioMain.py:186 | needs a merged range; removes it and empties the cells it hid |
| `Worksheet.Sheet.UnmergeFrom` | EnvioMain.py:183-186 | afterwards a merge remains iff it was there and starts above row 7; cells hidden by a removed merge are empty, all others unchanged |
| `Worksheet.Sheet.WriteHeader` | EnvioMain.py:188-190 | needs C2 and F2 not hidden and legal texts; C2 holds the date and F2 the time, as stored; nothing else changes |
| `Worksheet.Sheet.WritePlace` | EnvioMain.py:207-211 | needs the row within the sheet and column 2 of the row not hidden and a legal location; merges columns 2–8 of the row, column 2 holds the location, columns 3–8 are empty, all seven framed; every other cell is unchanged |
| `Worksheet.Sheet.WriteRow` | EnvioMain.py:203-221 | needs the row within the sheet and `Writable`; columns 1–9 of the row become the written cells of the result and the location merge is added; every other cell is unchanged |
| `Worksheet.Sheet.WriteRows` | EnvioMain.py:202-221 | needs the last data row within the sheet and every data row writable; row 7+k holds result k for every k < n, the n location merges are added, every other cell is unchanged |
| `Worksheet.Sheet.WriteCount` | EnvioMain.py:223-225 | needs H2 not hidden; H2 holds the count formula for n rows; nothing else changes |
| `Worksheet.Sheet.Render` | EnvioMain.py:178-225 | needs `Fits` of the template's merges, the results, the date and the time; the merges are then those above row 7 plus the n row merges, and every cell equals `Rendered` of the template, the results, the date and the time |
| `Worksheet.ClearTemplateFits` | EnvioMain.py:178-225 | when every template merge is removed or lies clear of row 2 and the data rows, rendering raises iff some date, time, unit or location text is illegal or the data rows run past row 1,048,576 |
| `Worksheet.CoveredUnitRaises` | EnvioMain.py:203-205 | a kept merge such as A5:A8 over the first data row's unit cell makes rendering raise when that row has a unit |
| `Worksheet.RenderedRow` | EnvioMain.py:202-221 | row 7+k: the unit in column 1 (when present) and the location in column 2 as stored, columns 3–8 empty, borders on columns 1–9, the status in column 9, red fill and red font iff DETENIDO, green fill and green font iff RUTA |
| `Worksheet.RenderedHeader` | EnvioMain.py:188-225 | C2, F2 and H2 hold the date, the time and the count formula, as stored; every other cell above the data rows is the template's |
| `Pipeline.Run` | EnvioMain.py:108-225 | the run exits iff the exclusion step fails, leaving the sheet untouched; otherwise its rows are the report of the vehicles against the built exclusion set; the sheet raises iff `Fits` fails for the template; otherwise the merges are those above row 7 plus the row merges and every cell is the rendering of those rows |
| `Worksheet.RenderedBelow` | EnvioMain.py:183-186 | below the last data row a cell is the template's unless a removed merge hid it, in which case it is empty |

Functions that carry no contract of their own are characterised by the members above:

- `Telemetry.Classify` (EnvioMain.py:154-174) by `ClassifyGates`, `UntimedIgnoresClock` and `UnaddressedIgnoresExclusion`;
- `Telemetry.Place` (EnvioMain.py:168-169) by `PlaceFallback` and the location clause of `ClassifyGates`;
- `Telemetry.Report` (EnvioMain.py:150-176) by `Process`, `ReportIsOrderedSubsequence` and `DroppedRecordIsInvisible`;
- `Worksheet.Rendered` and `Worksheet.WrittenCell` (EnvioMain.py:178-225) by `Render`, `RenderedRow`, `RenderedHeader` and `RenderedBelow`;
- `Worksheet.Fits` (EnvioMain.py:178-225) by `Render`, `Pipeline.Run`, `ClearTemplateFits` and `CoveredUnitRaises`.

## Left out

- Loading `.env`, the configuration globals and the missing-token exit (EnvioMain.py:18-36, 101-103): environment input.
- Logging setup and log calls (EnvioMain.py:40-44 and throughout): no behaviour to verify.
- The WhatsApp upload and template send (EnvioMain.py:51-95, 256-263), the email (EnvioMain.py:233-254) and the file removal (EnvioMain.py:264-269): network and file I/O.
- The HTTP requests themselves (EnvioMain.py:117-126, 137-148): the tag response is an input of `Exclusion.Build`, and the vehicle list is the input of `Telemetry.Process`. A failed vehicle request (a fatal exit) is not modelled.
- Timezone conversion, `dateutil` parsing and `strftime` formatting (EnvioMain.py:152, 158, 189-190, 228): foreign library calls. Time is integer seconds, so sub-second differences are not modelled, and the parser, the current time and the date and time texts are parameters.
- Loading the template and saving the workbook, with its timestamped file name (EnvioMain.py:179, 227-231): file I/O. The sheet is given as a `Sheet`.
- Exact colours and line styles (EnvioMain.py:193-199): fills and fonts are the enumerations `Fill` and `Font`, and the border is a flag.
- Worksheet.Sheet.Merge: openpyxl also copies the anchor cell's border edges onto the edge placeholders; the row loop then sets the full border on every cell of the span, so the model leaves this step out.
- Speed as a float (EnvioMain.py:163): only the comparison with 0 matters, so speed is an integer.
- JSON values of unexpected types (a non-string id or timestamp, a non-object vehicle, a null or non-object address record, a `gps`, `address` or `reverseGeo` value that is neither an object nor null, a tag body or `data` that is not an object): ids and timestamps are strings, and every vehicle, address record, nested record, tag body and `data` value is an object or, where the model allows it, null. A `gps`, `address` or `reverseGeo` value such as a list or a string would make the record raise (EnvioMain.py:155-168), so the record is dropped. A tag body or `data` value that is not an object would make `.get` raise (EnvioMain.py:128), which is the exclusion step's fatal exit. A vehicle that is not an object would make the error handler itself raise (EnvioMain.py:176). An address record that is null or not an object would make `a.get("id")` raise (EnvioMain.py:129), which is also the exclusion step's fatal exit. None of these is modelled.
- Coordinates are kept as the text Python prints for them; number formatting is not modelled.
- Worksheet.Sheet.Put: openpyxl raises on a row outside 1 to 1,048,576, on text for a cell a merge hides and on text with a refused control character; the method requires its caller to avoid all three rather than modelling the exception.
- Worksheet.Sheet.Assign: the same exceptions are excluded by its precondition.
- Worksheet.Sheet.Render: requires `Fits`, and so do the writers it calls for their parts; what a raise leaves half-written is not modelled.
- Pipeline.Run: the script raises part-way through writing the sheet and saves nothing; the model checks the same condition (`Fits`) before writing, returns `SheetFailed`, and promises nothing about the sheet in that case.
