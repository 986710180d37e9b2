# sinacor_negs in Dafny

A model of the decoder for the NEGS trade-report file that B3 sends through
Sinacor. The file is fixed-width text:

- the first line is a header record;
- every line after it and before the last is a trade record;
- the last line is a trailer record.

The decoder works in four steps:

1. It reads the layout from the header. An `"S"` at index 39 announces the
   layout for accounts of more than seven digits.
2. It builds three pandas frames: header, trades and trailer. Each frame
   starts empty and receives its columns one assignment at a time. Every
   column is cut from fixed `[start, end)` offsets of the line. Columns
   assigned twice (`tipo_liquidacao`, and in the new layout `codigo_cliente`
   and `reserva3`) keep the position of their first assignment and the value
   of their last.
3. It converts three trade columns. Quantity and settlement term go through
   `int()` after their leading zeros are stripped. Price goes through
   `float()` and is divided by 100.
4. It normalises every text column with `drop_left_zeros_df`: each cell
   loses its leading `'0'` characters and is then whitespace-trimmed.

## Files

- `wrappers.dfy` holds `Option` and `Result`.
- `pystr.dfy` holds the Python string operations the decoder relies on:
  - clamped slicing;
  - `lstrip("0")`;
  - `strip()`, with Python's Unicode whitespace set;
  - `int()` on a string, which skips a narrower whitespace set than
    `strip()`: the separators U+001C..U+001F stay and make it fail.
- `frames.dfy` models the part of a DataFrame the decoder uses:
  - an index length;
  - named columns in insertion order;
  - `df[name] = column`, which replaces an existing column in place and
    appends a new one.

  The `Frame` class is updated in place, as pandas updates a frame.
- `utils.dfy` models `drop_left_zeros_df`:
  - the per-cell function `StripCell`;
  - the whole-frame function `DropLeftZeros`;
  - the method `DropLeftZerosDf`, which loops over the columns of a `Frame`
    and rewrites them in place.
- `records.dfy` holds four modules:
  - `Records`: the two layouts, the exceptions, and the split of the file's
    lines into the column name and the rows (`Load`).
  - `HeaderRecord`, `TradeRecord` and `TrailerRecord`: the fields of each
    record, their column order and the offsets each final column is cut
    from.
- `plans.dfy` models a builder as the list of its assignments in program
  order (a *plan* of `Step`s). `Run` applies a plan to the lines with the
  overwrite-in-place rule. `Build` is the method that performs the same
  assignments on a `Frame`. The generic lemmas say three things:
  - which column survives an overwrite;
  - in what order the columns stand;
  - which conversion decides the exception.
- `reader.dfy` models `sinacor_negs/reader.py`, the canonical reader:
  - the layout sniff;
  - the three builders as plans;
  - the whole decode `Parse` and the path check `ReadNegs`;
  - the lemmas about them;
  - the builder methods `GetHeader`, `GetTrades`, `GetTrailer` and
    `ReadNegsTxt`, each proved to produce what the functions specify.
- `sinacor_negs.dfy` models `sinacor_negs/sinacor_negs.py`, the second,
  stateful reader. There the nested `get_header` stores the layout flag
  `account_more_than_seven_digits` on the `Negs` class, and `get_negs`
  reads that flag back. Its `ReadNegsTxt` is proved to agree with the
  canonical reader:
  - it succeeds exactly when the canonical reader does;
  - it raises the same exception;
  - it yields the same three frames;
  - it leaves the flag opposite to `check_first_layout`.

### Inputs

The file is given as its lines (`seq<string>`), as `pd.read_csv` would split
it. The first line becomes the frame's single column name, and the other lines
become its rows. The trades are the rows except the last (`iloc[:-1]`). The
trailer is the last row (`iloc[-1]`).

### Errors

Errors are values of `Records.Error`:

- `NotTxtPath`: the `ValueError` for a path that does not end in `.txt`.
- `EmptyData`: a file with no line.
- `MissingTrailer`: the `IndexError` when no row is left for the trailer,
  which happens for a one-line file.
- `IntLiteral(cell)` and `FloatLiteral(cell)`: the `ValueError` of
  `astype(int)` and `astype(float)`, each carrying the zero-stripped cell
  that was rejected.

Nothing else raises. Short lines give clamped or empty slices, as in Python.

### Conversions

The conversions follow the code in three points.

**An all-zero numeric field makes the file fail.** A quantity, price or
settlement-term field of zeros only (for example a settlement term of `000`)
is stripped to `""`. `int("")` and `float("")` reject that string, so
decoding fails (`ParseRejectsZeros`). No such field is read as 0.

**Normalisation is not idempotent.** Zeros that follow leading whitespace
survive the first pass: `" 012"` becomes `"012"`, and a second pass would
give `"12"` (`StripCellNotIdempotent`). It is idempotent on cells whose
result does not start with `'0'`, and in particular on cells without
whitespace (`StripCellIdempotent`, `StripCellNoLeadingZero`).

**The price is kept in hundredths.** It is stored as the integer
`float(text)` would give for a string of digits, read as hundredths.
Dividing by 100 is left to the reader of the column.

## Model

| member | source | states |
|---|---|---|
| PyStr.Slice | sinacor_negs/reader.py:31-43 | Python's `s[i:j]`: both bounds are clamped to the string, the length is the clamped difference or 0, and character k is `s[i+k]`. |
| PyStr.LastChars | sinacor_negs/reader.py:140 | `s[-n:]` for a positive `n`: the last `min(n, len(s))` characters, a suffix of `s`. |
| PyStr.SpacelessStrip | sinacor_negs/utils.py:6 | `strip()` leaves a string without whitespace unchanged. |
| PyStr.ParseIntDigits | sinacor_negs/reader.py:67 | `int()` reads a non-empty run of ASCII digits as its decimal value and rejects a string with no digit, the empty string included. |
| PyStr.ParseIntSpaced | sinacor_negs/reader.py:67-68 | `int()` and `float()` ignore the whitespace they skip (`TrimNumber`) around a run of digits, and yield a negative value only from a leading `-`. |
| PyStr.TrimNumberParts | sinacor_negs/reader.py:67-68 | What `int()` keeps after skipping whitespace is the middle of the cell, with only number whitespace (ASCII tab, LF, VT, FF, CR, space and non-ASCII spaces, but not U+001C..U+001F) before and after it. |
| PyStr.SeparatorNotNumberSpace | sinacor_negs/reader.py:67 | A cell `"12\x1c"` is `"12"` to `strip()` but rejected by `int()`: the two whitespace sets differ. |
| PyStr.SliceSplit | sinacor_negs/reader.py:32-34 | `s[i:k] == s[i:j] + s[j:k]` for `i <= j <= k`, whatever the length of `s`. |
| PyStr.LStripZerosValue | sinacor_negs/reader.py:67 | Stripping the leading zeros of a digit string keeps its decimal value. |
| Frames.AssignPositions | sinacor_negs/reader.py:59-89 | `df[name] = c` keeps every existing column at its position and the frame well formed, stores `c` under `name`, appends `name` only when it is new, and leaves the other columns alone. |
| Frames.Frame.constructor | sinacor_negs/reader.py:57 | `pd.DataFrame(index=...)`: n rows and no column. |
| Frames.Frame.Set | sinacor_negs/reader.py:59-89 | One in-place column assignment: the new contents are `Assign` of the old ones, and the frame stays well formed. |
| PyStr.LStripParts | sinacor_negs/utils.py:6 | `lstrip(c)` keeps a suffix of the string and drops only `c` characters before it; with `LStrip`'s own clause (the kept part does not start with `c`) this fixes the result. |
| PyStr.StripParts | sinacor_negs/utils.py:6 | `strip()` keeps the piece of the string that starts after its leading whitespace and is followed only by whitespace; the result is empty exactly when the string is all whitespace. With `Strip`'s own clause (no whitespace at either end of the result) this fixes the result. |
| Utils.StripCellParts | sinacor_negs/utils.py:6 | A raw cell is its longest run of leading `'0'`s, then whitespace, then the normalised cell, then whitespace. With `StripCell`'s own clause (no whitespace at either end of the result) this fixes the normalised cell. |
| Utils.StripCellNoLeadingZero | sinacor_negs/utils.py:6 | A cell without whitespace keeps no leading `'0'`. |
| Utils.StripCellKeepsZerosAfterSpace | sinacor_negs/utils.py:6 | Zeros behind leading whitespace survive: `" 012"` becomes `"012"`. |
| Utils.StripCellDropsZero | sinacor_negs/utils.py:6 | A cell `"012"` is normalised to `"12"`. |
| Utils.StripCellNotIdempotent | sinacor_negs/utils.py:6 | Normalising twice can differ from normalising once. |
| Utils.StripCellIdempotent | sinacor_negs/utils.py:6 | Normalising twice is normalising once when the result does not start with `'0'`. |
| Utils.NormalizeColumn | sinacor_negs/utils.py:5-6 | Only object columns are rewritten, cell by cell with `StripCell`; numeric columns are returned unchanged and the length is kept. |
| Utils.DropLeftZeros | sinacor_negs/utils.py:3-7 | The returned frame keeps the index, the column order and the set of column names. |
| Utils.DropLeftZerosFrame | sinacor_negs/utils.py:3-7 | Normalisation keeps the index, the column names and their order. |
| Utils.NormalizeOneCell | sinacor_negs/utils.py:5-6 | A one-row text column becomes its one cell normalised. |
| Utils.DropLeftZerosShape | sinacor_negs/utils.py:3-7 | The normalised frame keeps the index, the column names and their order, leaves numeric columns as they were and strips every text cell. |
| Utils.DropLeftZerosDf | sinacor_negs/utils.py:3-7 | The loop over `df.columns` rewrites the frame in place and returns the same frame, whose contents are then `DropLeftZeros` of the old contents. |
| HeaderRecord.NameInjective | sinacor_negs/reader.py:31-43 | Each header column name leads back to its field, so distinct fields are distinct columns. |
| TradeRecord.NameInjective | sinacor_negs/reader.py:59-95 | Each trade column name leads back to its field, so a frame keyed by field overwrites exactly where pandas, keyed by name, does. |
| TrailerRecord.NameInjective | sinacor_negs/reader.py:113-121 | Each trailer column name leads back to its field, so distinct fields are distinct columns. |
| Records.Load | sinacor_negs/reader.py:145 | The file's lines split into the column name (line 0) and the rows (the other lines), or `EmptyData` when there is no line. |
| TradeRecord.ColumnCount | sinacor_negs/reader.py:59-97 | The trade frame has 30 columns in the first layout and 34 in the new one. |
| TradeRecord.NewColumnAt | sinacor_negs/reader.py:59-97 | Every trade column stands at its own position in the new-layout column order. |
| TradeRecord.PositionInjective | sinacor_negs/reader.py:59-97 | Distinct trade columns stand at distinct positions. |
| TradeRecord.NumericPositions | sinacor_negs/reader.py:67-87 | Quantity, price and settlement term stand at positions 8, 9 and 27. |
| TradeRecord.NumericOffsets | sinacor_negs/reader.py:67-87 | Quantity, price and settlement term are the numeric columns, cut at `[50, 61)`, `[61, 72)` and `[169, 172)` in both layouts. |
| TradeRecord.TextLandmarks | sinacor_negs/reader.py:71-89 | `tipo_liquidacao`, `codigo_cliente`, `reserva3` and `tipo_operacao_recompra` stand at positions 12, 16, 28 and 29, and the first three are text. |
| TradeRecord.ExtendedLandmarks | sinacor_negs/reader.py:91-95 | The four new-layout columns stand at positions 30 to 33 and are text. |
| TradeRecord.TextOffsets | sinacor_negs/reader.py:75-97 | `tipo_liquidacao` is finally cut at `[168, 169)`; `codigo_cliente` and `reserva3` at their first-layout offsets or, in the new layout, at `[184, 193)` and `[193, 200)`. |
| TradeRecord.ExtendedOffsets | sinacor_negs/reader.py:92-95 | The four new-layout columns are cut at `[172, 175)`, `[175, 176)`, `[176, 180)` and `[180, 184)`. |
| TradeRecord.ColumnAt | sinacor_negs/reader.py:59-97 | Each trade column stands at its fixed position in the column order of either layout. |
| TradeRecord.ExtendedNotBase | sinacor_negs/reader.py:92-95 | The four new-layout columns are not first-layout columns. |
| TradeRecord.InColumns | sinacor_negs/reader.py:59-97 | A column of the layout has a position inside that layout's column order. |
| Plans.Cut | sinacor_negs/reader.py:59-89 | `lines.str[start:end]`: one cell per line, each the clamped slice of its line. |
| Plans.Unpadded | sinacor_negs/reader.py:67 | `.str.lstrip("0")` applied to every cell. |
| Plans.ParseAll | sinacor_negs/reader.py:67 | `astype` on a text column: when it succeeds, one value per cell. |
| Plans.Converted | sinacor_negs/reader.py:67 | `lines.str[a:b].str.lstrip("0").astype(int)`: when it succeeds, one value per line. |
| Plans.DigitsAfterZeros | sinacor_negs/reader.py:67 | A digit field that is not zeros only keeps a non-empty run of digits after `lstrip("0")`. |
| Plans.ParseAllValues | sinacor_negs/reader.py:67 | `astype` succeeds exactly when every cell parses, and then holds each cell's value in order. |
| Plans.ParseAllFirstError | sinacor_negs/reader.py:67 | A failed `astype` reports the first cell that does not parse, all cells before it having parsed. |
| Plans.UnpaddedZeros | sinacor_negs/reader.py:67 | A field of zeros only, the empty field included, is stripped to `""`, which `int()` rejects. |
| Plans.UnpaddedDigits | sinacor_negs/reader.py:67 | A digit field that is not zeros only is read as its decimal value. |
| Plans.UnpaddedDigitCell | sinacor_negs/reader.py:87 | `int()` of a zero-stripped digit field is rejected exactly when the field is zeros only, and is otherwise its decimal value. |
| Plans.ConvertedCell | sinacor_negs/reader.py:67 | In a converted field, a digit cell holds its decimal value and was not zeros only. |
| Plans.ConvertedZeros | sinacor_negs/reader.py:87 | One all-zero cell makes the whole conversion fail. |
| Plans.ConvertedDigits | sinacor_negs/reader.py:67 | A digit field converts exactly when no cell is zeros only; the values are then the decimal values, and otherwise the error reports `""`. |
| Plans.Decode | sinacor_negs/reader.py:59-89 | One assignment yields a column of one cell per line: text for a plain cut, int or hundredths for a conversion, which alone can raise. |
| Plans.Apply | sinacor_negs/reader.py:57-89 | The assignments on a fresh frame keep the frame's row count. |
| Plans.Run | sinacor_negs/reader.py:57-89 | A builder run on the lines: when it gets through, a frame of one row per line. |
| Plans.Appearance | sinacor_negs/reader.py:59-97 | The column order pandas keeps: every assigned name once, and only assigned names. |
| Plans.AppearanceDistinct | sinacor_negs/reader.py:31-43 | Names assigned once each keep their assignment order. |
| Plans.AppearanceRepeats | sinacor_negs/reader.py:86-97 | Names assigned again do not move. |
| Plans.AppearanceExtends | sinacor_negs/reader.py:92-95 | New names go to the end, in assignment order. |
| Plans.ApplyWellFormed | sinacor_negs/reader.py:57-89 | The assignments yield a well-formed frame. |
| Plans.ApplyOrder | sinacor_negs/reader.py:57-89 | The frame's columns are the assigned names, ordered by first assignment. |
| Plans.ApplyLast | sinacor_negs/reader.py:71-86 | A column holds what the last assignment to its name stored. |
| Plans.ApplySucceeds | sinacor_negs/reader.py:67-87 | A builder gets through exactly when no assignment raises. |
| Plans.ApplyFirstError | sinacor_negs/reader.py:67-87 | A failing builder raises what its first failing assignment raised. |
| Plans.ApplyStopsAt | sinacor_negs/reader.py:67-87 | An assignment that raises after error-free ones decides the builder's exception. |
| Plans.RunShape | sinacor_negs/reader.py:57-89 | A run yields a well-formed frame whose columns are the plan's names by first assignment. |
| Plans.RunLast | sinacor_negs/reader.py:71-86 | A column of a run holds what its last assignment stored. |
| Plans.RunConversions | sinacor_negs/reader.py:67-87 | With three converting assignments, the run gets through exactly when they do, and otherwise raises what the first failing one raises. |
| Plans.RunSucceeds | sinacor_negs/reader.py:59-89 | A run gets through exactly when no assignment raises. |
| Plans.RunFailsAt | sinacor_negs/reader.py:67-87 | An assignment that raises after error-free ones ends the run with its exception. |
| Plans.TextPlanRuns | sinacor_negs/reader.py:113-121 | A builder that converts nothing cannot raise. |
| Plans.Build | sinacor_negs/reader.py:57-89 | Creating a frame and performing the plan's assignments on it in order gives `Run`'s frame, or its exception. |
| Reader.CheckFirstLayout | sinacor_negs/reader.py:13-20 | First layout exactly when the header has no `"S"` at index 39, including headers of 39 characters or fewer. |
| Reader.DetectLayout | sinacor_negs/reader.py:147 | The new layout exactly when the header has an `"S"` at index 39. |
| Reader.HeaderShape | sinacor_negs/reader.py:29-43 | `get_header` cannot raise and yields one row with the nine header columns in record order. |
| Reader.HeaderNames | sinacor_negs/reader.py:31-43 | The header assigns each column once, in record order, converting nothing. |
| Reader.HeaderFinal | sinacor_negs/reader.py:31-43 | Each header column is assigned at the offsets of its field, and not again after that. |
| Reader.HeaderColumn | sinacor_negs/reader.py:31-43 | Each header column is cut from the header line at its field's offsets for the layout. |
| Reader.HeaderLayouts | sinacor_negs/reader.py:40-43 | The two layouts give the same header except `reserva`, which is `[38, 200)` in the first layout and `[39, 200)` in the new one. |
| Reader.HeaderFields | sinacor_negs/reader.py:23-47 | The normalised header: one row, the nine columns in order, each the stripped cut of the header line. |
| Reader.TradeSteps | sinacor_negs/reader.py:59-97 | Each trade assignment writes the column at its slot with its conversion and, unless overwritten later, cuts at that column's offsets. |
| Reader.TradeFinal | sinacor_negs/reader.py:59-97 | Each trade column is last assigned by its deciding step, which cuts it at the column's offsets for the layout. |
| Reader.SlotsAfterFinal | sinacor_negs/reader.py:86-97 | No assignment after the deciding one writes the same column again. |
| Reader.CommonAppearance | sinacor_negs/reader.py:59-89 | Before the layout test, the columns stand in first-assignment order, with `tipo_liquidacao` at its first position. |
| Reader.ExtendedAppearance | sinacor_negs/reader.py:91-97 | The new-layout assignments append four columns and overwrite two in place. |
| Reader.KeptColumns | sinacor_negs/reader.py:59-89 | The columns kept before the layout test are the first-layout columns in record order. |
| Reader.AddedColumns | sinacor_negs/reader.py:92-95 | The appended columns are the four new-layout columns. |
| Reader.TradeOrder | sinacor_negs/reader.py:59-97 | The trade columns come in record order: overwritten columns keep their first position and the four new ones follow `tipo_operacao_recompra`. |
| Reader.Conversion | sinacor_negs/reader.py:67-87 | A trade column is converted exactly when it is quantity, price or settlement term. |
| Reader.ConversionAt | sinacor_negs/reader.py:67-87 | The deciding assignment of each column applies that column's conversion. |
| Reader.TradeColumn | sinacor_negs/reader.py:59-97 | Each trade column holds its field cut at the final offsets and converted as the field is. |
| Reader.TradeShape | sinacor_negs/reader.py:56-97 | The trade frame has one row per trade line and the layout's columns in record order. |
| Reader.TradeConversions | sinacor_negs/reader.py:67-87 | Only quantity `[50, 61)`, price `[61, 72)` and settlement term `[169, 172)` are converted. |
| Reader.TradesOutcome | sinacor_negs/reader.py:67-87 | `get_trades` raises exactly when one of its three conversions does, and then raises the first failure in program order. |
| Reader.TradeTextColumn | sinacor_negs/reader.py:59-97 | A text trade column is its field cut from every trade line at the final offsets. |
| Reader.NumericColumn | sinacor_negs/reader.py:67-87 | A numeric trade column holds its field converted: hundredths for the price, integers for quantity and settlement term. |
| Reader.TradeColumnAt | sinacor_negs/reader.py:59-97 | A text trade column stands at its fixed position and holds the cut of its final assignment. |
| Reader.FinalKind | sinacor_negs/reader.py:67-87 | Only the deciding assignments of positions 8, 9 and 27 convert: integer, hundredths, integer. |
| Reader.SettlementTypeSteps | sinacor_negs/reader.py:71-86 | `tipo_liquidacao` is assigned from `[80, 81)` and again from `[168, 169)`. |
| Reader.SettlementType | sinacor_negs/reader.py:71-86 | `tipo_liquidacao` keeps its first position and the value cut from `[168, 169)`. |
| Reader.ClientColumn | sinacor_negs/reader.py:75-96 | `codigo_cliente` is `[99, 106)` in the first layout and `[184, 193)` in the new one, and stays at position 16. |
| Reader.ReserveColumn | sinacor_negs/reader.py:88-97 | `reserva3` is `[172, 198)` in the first layout and `[193, 200)` in the new one, and stays at position 28. |
| Reader.ExtendedPresence | sinacor_negs/reader.py:89-97 | The four new columns follow `tipo_operacao_recompra` in the new layout and are absent from the first. |
| Reader.PhaseColumns | sinacor_negs/reader.py:92-93 | `fase_grupo_instrumento` is `[172, 175)` and `fase_sessao_negociacao` is `[175, 176)`. |
| Reader.StateAndBdiColumns | sinacor_negs/reader.py:94-95 | `estado_instrumento` is `[176, 180)` and `codigo_bdi` is `[180, 184)`. |
| Reader.TrailerShape | sinacor_negs/reader.py:110-121 | `get_trailer` cannot raise once it has a line, and yields one row with the nine trailer columns in order. |
| Reader.TrailerNames | sinacor_negs/reader.py:113-121 | The trailer assigns each column once, in record order, converting nothing. |
| Reader.TrailerFinal | sinacor_negs/reader.py:113-121 | Each trailer column is assigned at its field's fixed offsets and not again after that. |
| Reader.TrailerColumn | sinacor_negs/reader.py:113-121 | Each trailer column, `total_registros_gerados` `[30, 39)` included, is text cut at its fixed, layout-independent offsets. |
| Reader.FileNameParts | sinacor_negs/reader.py:32-34 | In header and trailer, raw `nome_arquivo` is raw `codigo_arquivo` followed by raw `codigo_usuario`. |
| Reader.Header | sinacor_negs/reader.py:23-47 | `get_header` never raises, and its frame has one row and the nine header columns in record order. |
| Reader.Trades | sinacor_negs/reader.py:50-101 | A trade frame that is built has one row per trade line. |
| Reader.Trailer | sinacor_negs/reader.py:104-125 | `get_trailer` raises exactly when the file has no row after the header, and then with `IndexError`; otherwise one row and the nine trailer columns in order. |
| Reader.Parse | sinacor_negs/reader.py:145-152 | A decoded file has at least two lines; its header and trailer have one row each and its trades one row per line between them. |
| Reader.ReadNegs | sinacor_negs/reader.py:140-152 | A path without the `.txt` ending raises before the file is read; any other path gives the decode of its lines. |
| Reader.TradeLines | sinacor_negs/reader.py:56 | `iloc[:-1]`: every row but the last, in order, and none when there is no row. |
| Reader.IsTxtPath | sinacor_negs/reader.py:140 | The path is accepted exactly when it has at least four characters and ends in `.txt`. |
| Reader.TrailerFields | sinacor_negs/reader.py:104-125 | The normalised trailer: one row, the nine columns, each the stripped cut of the last row. |
| Reader.TradesShape | sinacor_negs/reader.py:50-101 | The normalised trade frame exists exactly when the three conversions succeed, and has one row per trade line and the layout's columns; otherwise the first failure decides the exception. |
| Reader.TradesNumbers | sinacor_negs/reader.py:67-99 | After normalisation, numeric column `f` still holds its field converted from every trade line. |
| Reader.TradesText | sinacor_negs/reader.py:99 | Text cell i of a trade column is the stripped cut of trade row i. |
| Reader.ParseParts | sinacor_negs/reader.py:145-152 | A decoded file has at least two lines and gathers the three frames of its builders. |
| Reader.ParseShortFile | sinacor_negs/reader.py:145-150 | No line: the load fails; one line: no row is left for the trailer. |
| Reader.ParseByTrades | sinacor_negs/reader.py:145-152 | A file of two lines or more decodes exactly when its trade frame does, and fails with the same error. |
| Reader.ParseOutcome | sinacor_negs/reader.py:145-152 | A file of two lines or more fails exactly when a trade conversion fails, with the first failure in program order. |
| Reader.ParseShape | sinacor_negs/reader.py:145-152 | N lines give a one-row header and trailer and N - 2 trade rows, each frame with its record's columns in order. |
| Reader.ParseHeader | sinacor_negs/reader.py:29 | Every header column comes from line 0, at offsets for the layout that line announces. |
| Reader.ParseTrailer | sinacor_negs/reader.py:110 | Every trailer column comes from the last line. |
| Reader.ParseTrade | sinacor_negs/reader.py:56-97 | Trade row i comes from line i + 1: each text cell is its field's stripped cut of that line. |
| Reader.ParseNumbers | sinacor_negs/reader.py:67-87 | Numeric column `f` of a decoded file holds its field converted from lines 1 to N - 2, which all convert. |
| Reader.ParseNumberCell | sinacor_negs/reader.py:67-87 | Cell `i` of numeric column `f` is the decimal value of its field in line `i + 1` when that field is digits, and such a field is not zeros only. |
| Reader.ParseQuantity | sinacor_negs/reader.py:67 | `quantidade_negocio` of row i is the decimal value of `[50, 61)` of line i + 1 when that field is digits, and such a field is not zeros only. |
| Reader.ParsePrice | sinacor_negs/reader.py:68 | `preco_negocio` of row i, in hundredths, is the decimal value of `[61, 72)` of line i + 1 when that field is digits. |
| Reader.ParseSettlementTerm | sinacor_negs/reader.py:87 | `prazo_liquidacao` of row i is the decimal value of `[169, 172)` of line i + 1 when that field is digits. |
| Reader.ParseRejectsZeros | sinacor_negs/reader.py:67-87 | A trade line whose quantity, price or settlement term is zeros only, or lies past the end of the line, makes the decode fail. |
| Reader.GetHeader | sinacor_negs/reader.py:23-47 | Builds and normalises a new header frame whose contents are `Header`. |
| Reader.GetTrades | sinacor_negs/reader.py:50-101 | Builds and normalises a new trade frame whose contents are `Trades`, or raises what `Trades` raises. |
| Reader.GetTrailer | sinacor_negs/reader.py:104-125 | Builds and normalises a new trailer frame whose contents are `Trailer`, or raises `IndexError` when there is no row. |
| Reader.ReadNegsTxt | sinacor_negs/reader.py:128-152 | Rejects a non-`.txt` path before reading, then returns three new frames whose contents are `ReadNegs`, or raises what it raises. |
| SinacorNegs.FlagLayout | sinacor_negs/sinacor_negs.py:131 | The flag selects the new layout exactly when it is set. |
| SinacorNegs.GetHeader | sinacor_negs/sinacor_negs.py:63-89 | Sets the flag to the opposite of `check_first_layout` and builds the canonical reader's header for the detected layout. |
| SinacorNegs.GetNegs | sinacor_negs/sinacor_negs.py:91-141 | Builds the canonical trade frame for the layout the stored flag selects. |
| SinacorNegs.ReadNegsTxt | sinacor_negs/sinacor_negs.py:47-167 | Clears the flag, then stores header and flag, trades and trailer on the shared object in that order. It agrees with the canonical decode on success and on the exception, and returns the shared object. When a later step raises, what earlier steps stored stays: after a failed trailer the trade frame is stored and the trailer slot is left as it was. |
| SinacorNegs.ReadTwoFilesShared | sinacor_negs/sinacor_negs.py:58 | Two reads return the same object, whose header is now the second file's. |
| SinacorNegs.ReadNegsTxtFresh | sinacor_negs/sinacor_negs.py:58-167 | With a new object per call, the result holds the canonical frames and flag. |
| SinacorNegs.ReadTwoFilesFresh | sinacor_negs/sinacor_negs.py:58 | With a new object per call, two reads return distinct objects and each keeps its own file's header. |

## Left out

- `pd.read_csv`'s parsing is not modelled: quoting, splitting of lines that
  contain commas, and the skipping of blank lines. The file is taken as the
  list of lines the loader would produce. Reading the file from disk is
  outside the model.
- `pd.read_csv`'s default NA conversion is not modelled. A line such as `NA`
  or `null` becomes NaN there; the model reads it as text.
- `pd.read_csv`'s dtype inference for the single column is not modelled. A
  file whose lines all look numeric would be read as numbers there; the
  model always reads text lines.
- The float arithmetic of `astype(float).div(100)` is not modelled. The
  price is kept as integer hundredths.
- The price field is parsed with the integer syntax of `int()`. Strings
  that `float()` accepts but `int()` rejects (such as `"1.5"`, `"1e3"`,
  `"nan"` or `"inf"`) are reported as the `FloatLiteral` error.
- `int()`'s acceptance of `_` separators and of non-ASCII decimal digits is
  not modelled. Only ASCII digits are read.
- `int64` overflow of very large quantities is not modelled. Integers are
  unbounded.
- `sinacor_negs/negs.py` is not part of this model. It is a container of
  three frames with no logic, represented by `Reader.Negs`.
- `setup.py` is not part of this model. It is packaging.
- pandas' `dtype` machinery is reduced to three column kinds: object text,
  integer, and price in hundredths.
- Utils.NormalizeColumn follows pandas 2, where text columns have the
  `object` dtype. Under pandas 3's default string dtype,
  `df[col].dtype == object` is false for every text column, so
  `drop_left_zeros_df` would strip no column at all.
- SinacorNegs.ReadNegsTxt: the flag is stated after the whole call, not
  between `get_header` and `get_negs`. The ordering is carried by `GetNegs`,
  which reads the flag `GetHeader` has just set.

## Findings

| source | as written | input that shows it | evidently intended | confidence | as-written member | corrected member |
|---|---|---|---|---|---|---|
| sinacor_negs/sinacor_negs.py:58 | `_negs = Negs` binds the class itself, not a new instance, so every call stores its frames on, and returns, the same class object | two calls on two files whose headers differ: the first call's result now shows the second file's header | a new `Negs` object per call | high, not executed | SinacorNegs.ReadTwoFilesShared | SinacorNegs.ReadTwoFilesFresh |
