# pzfx_parser in Dafny

A model of `pzfx_parser.py`. This Python module reads GraphPad Prism `.pzfx` documents and
returns one table per `Table` element, keyed by the table's title. The model starts from
the already parsed XML tree:

- `read_pzfx` checks the document root. It accepts only a `GraphPadPrismFile` of XML version
  `5.00`.
- It then maps the flattened text of each table's `Title` to the parsed table. When two
  tables share a title, the later table overwrites the earlier one.
- `_parse_table_to_dataframe` reads `ID` and `TableType`. It parses XY and TwoWay tables and
  refuses every other table type.
- `_parse_xy_table` reads `XFormat`, `YFormat` and `EVFormat`. It stores every subcolumn of
  the X columns, then of the Y columns, under `title_discriminator`:
  - X discriminators run `0, 1, 2, …`.
  - Y discriminators cycle through `Mean, SEM, N` for `SEN`, and through `Mean, Lower, Upper`
    for `upper-lower-limits`; otherwise they run `0, 1, 2, …`.
  - A repeated key overwrites the earlier column.
  - Finally, every column shorter than the longest is right-padded with missing markers.
- `_get_all_text` concatenates the text of an element and of all its descendants, in
  pre-order.

Modules:

- `Wrappers` holds `Option` and `Result`.
- `Errors` holds the ways a load fails. Each corresponds to an exception the code raises:
  - `PrismFileLoadError` for a bad root, a bad version or an unsupported table type.
  - `KeyError` for a missing attribute.
  - The failure of `_get_all_text(None)` for a missing `Title`.
  - `ValueError` from `max` of an empty list.
- `Xml` holds the element tree, `iter()`, `findall`, `find` and the text flattening, both as
  a recursive definition and as the source's loop.
- `Naming` holds the discriminator generators.
- `Dicts` models Python dictionary assignment in order.
- `XyTable` holds the XY/TwoWay extraction.
- `Pzfx` holds table dispatch and document loading.
- `Examples` works one SEN table through the whole extraction.

The imperative parts of the source are methods proved against specification functions:

- The text-collecting loop of `_get_all_text`.
- The `count()`/`cycle()` generators with the closures that advance them. These become a
  class whose `Next` updates its counter or position.
- The two nested storing loops.
- The padding loop.

The comprehensions and the dispatch are functions.

The code is narrower than the Prism format allows:

- The code accepts only the bare root tag `GraphPadPrismFile`. It has no namespace handling.
- The code accepts only `XY` and `TwoWay` tables. `OneWay` is refused like any other type.
- None of `XFormat`, `YFormat`, `EVFormat` or `ID` is optional: a missing one is a `KeyError`.
- Points marked `Excluded` and points with empty text get no special treatment. Every
  point goes through `float(text)`.
- There is no row-titles column.
- There is no per-column catching of extraction failures. A failure aborts the whole load.

## Model

| member | source | states |
|---|---|---|
| Xml.GetAllText | pzfx_parser.py:13-18 | the loop over `iter()` that appends each non-None text returns exactly the tree's text: own text, then each child's subtree in order |
| Xml.AllTextIsPreorder | pzfx_parser.py:15-17 | concatenating the texts of the pre-order walk `iter()` yields equals the recursive text of the tree |
| Xml.AllTextWithoutText | pzfx_parser.py:13-18 | a tree in which no element carries text flattens to the empty string |
| Xml.FindAllSpec | pzfx_parser.py:21 | `findall(tag)` yields as many elements as children carry the tag, only children with that tag, and each such child at its rank among them (document order) |
| Xml.FindFirst | pzfx_parser.py:43 | `find(tag)` is None exactly when no child carries the tag; otherwise it is a child with the tag that no earlier child's tag matches |
| Xml.FindFirstIsHeadOfFindAll | pzfx_parser.py:43-44 | `find(tag)` is the first element `findall(tag)` returns, None when that is empty |
| XyTable.SubcolumnValuesSpec | pzfx_parser.py:20-22 | one value per `d` child of the subcolumn, in document order, each the parse of that point's flattened text |
| Naming.NatToString | pzfx_parser.py:30 | `str(n)` of a counter value is a non-empty string of decimal digits with no leading zero |
| Naming.ParseNatToString | pzfx_parser.py:30 | reading back the rendered counter value gives the value |
| Naming.NatToStringInjective | pzfx_parser.py:30 | distinct counter values render to distinct strings |
| Naming.YNames | pzfx_parser.py:31-39 | the k-th Y discriminator is `[Mean, SEM, N][k mod 3]` for SEN, `[Mean, Lower, Upper][k mod 3]` for upper-lower-limits, and `str(k)` for any other format |
| Naming.FirstYNames | pzfx_parser.py:31-39 | the first three Y discriminators are Mean, SEM, N; Mean, Lower, Upper; and 0, 1, 2 |
| Naming.SubcolumnNamer.constructor | pzfx_parser.py:29 | a fresh generator has issued nothing, so its first name is the scheme's first |
| Naming.SubcolumnNamer.Next | pzfx_parser.py:29-39 | each call returns the scheme's next discriminator (number `issued`) and advances the counter or cycle position by one |
| Naming.KeySplit | pzfx_parser.py:45 | two keys `title_digits` are equal only when both the titles and the digit strings are equal |
| Naming.CounterKeysDistinct | pzfx_parser.py:45 | keys built from different counter values differ, whatever the column titles |
| Dicts.AssignAllAppend | pzfx_parser.py:41-51 | assigning two runs of entries is assigning the first run, then the second |
| Dicts.AssignAllKeys | pzfx_parser.py:46 | after the assignments the keys are the old keys plus every assigned key |
| Dicts.AssignAllLastWins | pzfx_parser.py:46 | a key holds the value of its last assignment |
| Dicts.AssignAllUntouched | pzfx_parser.py:46 | a key never assigned keeps its old presence and value |
| XyTable.StoreColumn | pzfx_parser.py:44-46 | the inner loop stores each subcolumn under `title_<next discriminator>`, in order, overwriting repeats, and advances the generator once per subcolumn |
| XyTable.StoreTitledColumn | pzfx_parser.py:43-46 | one pass of the outer loop fails with MissingTitle exactly when the column has no Title; otherwise it stores the column's subcolumns under its flattened title text and advances the generator once per subcolumn |
| XyTable.StoreSubcolumns | pzfx_parser.py:42-51 | the two nested loops over a group of columns give the assignments of all their subcolumns column by column, numbered on from the generator's state; they fail with MissingTitle exactly when some column lacks a Title |
| XyTable.ColumnsAreAssignments | pzfx_parser.py:41-51 | extraction succeeds exactly when every X and Y column has a Title, and then the dictionary is all X entries, then all Y entries, assigned in order |
| XyTable.EntryKey | pzfx_parser.py:45 | the k-th subcolumn of a run is keyed `title_<k-th discriminator>` with its parsed values |
| XyTable.CounterEntriesDistinct | pzfx_parser.py:45 | counter-numbered subcolumn keys of one run are pairwise distinct |
| XyTable.ColumnsKeys | pzfx_parser.py:41-51 | the column names are exactly the keys of the X and Y entries |
| XyTable.ColumnsLastWins | pzfx_parser.py:45-51 | of several subcolumns producing one key, the last processed one (Y after X, later in the document) holds it |
| XyTable.XSubcolumnKept | pzfx_parser.py:42-46 | the k-th X subcolumn is stored under `title_k` and survives unless a Y subcolumn reuses exactly that key |
| XyTable.MaxLen | pzfx_parser.py:53 | the length of the longest column: some column has it and none is longer |
| XyTable.PadAll | pzfx_parser.py:54-56 | padding keeps the keys; a column shorter than n has length n afterwards and a longer one keeps its length; its values are a prefix, and only missing markers follow |
| XyTable.PadColumns | pzfx_parser.py:54-56 | the padding loop over the keys leaves exactly the padded dictionary |
| XyTable.XYTable | pzfx_parser.py:24-57 | a missing XFormat, then YFormat, then EVFormat fails naming that attribute; with all three present an extraction failure is passed on; the table parses exactly when the three are present, extraction succeeds and at least one subcolumn exists, and then it is padded to the longest column with values kept as prefixes; NoColumns exactly when the formats are present and no subcolumn exists |
| XyTable.XYTableColumn | pzfx_parser.py:41-57 | in the finished table a key holds its last subcolumn's values followed only by missing markers |
| XyTable.ParseXYTable | pzfx_parser.py:24-57 | the procedure (two generators, the storing loops, max, padding) returns exactly the result of the definition above |
| Pzfx.ParseTable | pzfx_parser.py:60-70 | missing ID, then missing TableType, fail with those keys; an XY or TwoWay table gives exactly the XY extraction's result; any other type fails naming the type; success only for XY and TwoWay, with a non-empty table whose columns all have one length |
| Pzfx.TableEntry | pzfx_parser.py:82 | an item of the comprehension succeeds exactly when the table has a Title and parses; a missing Title fails first; the item is (title text, table) |
| Pzfx.Collect | pzfx_parser.py:82-83 | evaluating items in order succeeds exactly when each does, keeping their values in order; otherwise it fails with the error of the first failing item |
| Pzfx.ReadPzfx | pzfx_parser.py:72-85 | a wrong root tag, a missing version and a version other than 5.00 fail in that order; a loaded document has a valid header and only non-empty tables with columns of equal length |
| Pzfx.ReadPzfxFirstBadTable | pzfx_parser.py:82-83 | a document with a valid header loads exactly when every table does, and otherwise fails with the error of the first failing table |
| Pzfx.CollectKeys | pzfx_parser.py:82-83 | the keys of the dictionary built from successful items are exactly the items' names |
| Pzfx.ReadPzfxTitles | pzfx_parser.py:82-83 | in a loaded document every table has a Title, and the keys are exactly the set of table titles |
| Pzfx.ReadPzfxLastTableWins | pzfx_parser.py:82-83 | of tables sharing a title, the last in the document is the one kept |
| Examples.SenTableColumns | pzfx_parser.py:41-51 | an SEN table with X values 1, 2 and Y subcolumns [10, 20], [0.1, 0.2] and [] gives columns X_0, Y_Mean, Y_SEM and an empty Y_N |
| Examples.SenTableParsed | pzfx_parser.py:24-57 | the same table parses to those four columns, with Y_N padded to two missing markers |

## Left out

- Reading the file (`ET.parse`) is left out: the model starts from the parsed root element.
- Number parsing is left out. `float(text)` becomes the value `Num(text)`, identified by the point's text, so a `ValueError` from text that is not a number is not modelled. `np.nan` padding becomes the `Missing` marker.
- The column order of the pandas DataFrame is left out. A table is a map from column name to values, and so is the result of `read_pzfx`.
- Element `tail` text is left out: `_get_all_text` reads only `.text`, so the element tree carries no tails.
- The values of `XFormat`, `EVFormat` and `ID` are left out. The code reads them and never uses them, so only their presence is checked.
- The `SubcolumnNamer` class models the `count()`/`cycle()` generators only as far as `_parse_xy_table` uses them: one `next` per call, never exhausted.
- Evaluation order in the `read_pzfx` comprehension follows Python 3.8 and later, where a dict comprehension evaluates the key (the title) before the value (the parsed table). Before 3.8 the value came first, so an untitled table of an unsupported type raised the table-type error there, not the missing-title failure.
- `DataFrame` construction is left out. The table handed to `pd.DataFrame` is the result.

