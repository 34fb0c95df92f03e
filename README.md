# bomDash stock logic in Dafny

bomDash is a small Flask application. It keeps the bill of materials (BOM) for a fleet of
light rail vehicles (LRVs). Each `main_bom_storage` row is one part. It records how many units
one LRV needs, how many are in stock at the store, how many were shipped out, and so on. The
web views log deliveries, adjust and ship stock, compute shortages for a number of trains, and
show dashboard counts. Two import scripts load the table from spreadsheets.

This project models that logic and proves what it promises. There is one module per source
file:

| module | file | what it holds |
|---|---|---|
| `Wrappers` | (none) | `Option` and `Result` |
| `PyText` | (none) | the Python string operations the scripts use: `strip` on the `isspace` set, `replace`, ASCII `upper`/`lower`, `in`, `join`, `str(int)` |
| `Numerals` | (none) | the numeral grammar `[+-]?\d+(\.\d+)?([eE][+-]?\d+)?`, its exact value, and the prefix match of that regular expression |
| `DbUrl` | app.py | `_normalize_db_url` |
| `Models` | app/models.py | `MainBOMStorage` |
| `Forms` | app/forms.py | the validator bounds and choice sets, as predicates |
| `Routes` | app/routes.py | the handlers |
| `MigrateExcel` | migrate_excel_data.py | the Excel import |
| `SeedBom` | app/seed_bom_drom_tsv.py and seed_bom_drom_tsv.py | the TSV seed (the two files are byte-identical) |

`MainBOMStorage` is modelled twice:

- `Models.Part` is a class whose fields are the columns. `calculate_lrv_coverage` is a method
  that updates `coverage_lrvs` in place.
- `Models.Row` is a datatype holding the same columns as a value. `Part.Snapshot()` ties the
  two together.

The catalog `Routes.Inventory` holds its rows as a `seq<Row>` and replaces the row a handler
changes. Each handler is a method proved against a pure function of one step:

| handler | step function |
|---|---|
| `delivery_log` | `Delivered` |
| `stock_adjustment` | `Adjusted` |
| `export_shipment` | `ShipItem`, folded by `ShipAll` |
| `add_part` | `NewRow` |
| `train_calculator` | `ResultsFor` plus the stable sort `SortByShortage` |

Those functions carry the properties: conservation of stock plus shipped-out quantity,
stability and order of the sort, the floor at zero, and so on.

The form validators become the `requires` of the handlers. A form that fails validation never
reaches a handler.

The dashboard and autocomplete queries read the catalog without changing it. `Routes.Where` is
`query.filter`, keeping catalog order, and `.limit(n)` takes its first n rows. The
autocomplete's `column.contains(q)` is SQL `column LIKE '%' || q || '%'`, with `q` not
escaped. `Routes.LikeMatch` evaluates LIKE as SQLite does: `%` and `_` are wildcards, and ASCII
letters match either case.

The import scripts keep their loops. Each loop is a method whose `ensures` is a function of
the input rows:

- `MigrateExcel.MapHeaders`, `MigrateExcel.BuildRecords`
- `SeedBom.BuildPayload`, `SeedBom.ApplyPayload`, `SeedBom.Seed`

Lemmas state what those functions mean.

Parts of the Python runtime that cannot be seen from the source are parameters of the model:

- `parseFloat` is `float()` on text outside the numeral grammar.
- `floatRepr` is how `str()` prints a float.

Python `int()` truncates toward zero (`Models.Trunc`). `//` floors.

Wherever the source assigns to a read-only `@property` alias, the model writes the value to
the stored column that the alias reads. The model then proves the alias reads the value back.

## Model

| member | source | states |
|---|---|---|
| `DbUrl.NormalizeDbUrl` | app.py:11-17 | None and "" give None, every other input gives a value; a value is stripped and never starts with `postgres://` |
| `DbUrl.NormalizeKeepsOtherUrls` | app.py:14-17 | a non-empty URL whose stripped form does not start with `postgres://` comes back stripped and otherwise unchanged |
| `DbUrl.NormalizeRewritesLegacyScheme` | app.py:15-16 | a stripped `postgres://` + rest becomes `postgresql://` + the same rest |
| `DbUrl.NormalizeBlankIsEmpty` | app.py:12-14 | a whitespace-only URL gives "" and not None, because emptiness is tested before stripping |
| `DbUrl.NormalizeIdempotent` | app.py:14-17 | normalising a result other than "" returns it unchanged |
| `Models.OrZero` | app/models.py:43-66 | each alias reads its column, or 0.0 when the column is null |
| `Models.OrDefault` | app/models.py:75-78 | `consumable_or_essential` is the type, or 'Long Lead' when the type is null or empty |
| `Models.Coverage` | app/models.py:68-73 | coverage is 0.0 when the per-LRV quantity is not positive, and non-negative for a positive per-LRV quantity and non-negative stock |
| `Models.CoverageScales` | app/models.py:71-72 | with a positive per-LRV quantity, coverage times that quantity is the stock |
| `Models.Trunc` | app/models.py:90 | `int()` truncates toward zero: the result is within 1 of its argument, on the side of zero |
| `Models.CoverageLrvsBracketsStock` | app/models.py:87-90 | for positive per-LRV quantity q and stock s ≥ 0, the stored `coverage_lrvs` c satisfies c·q ≤ s < (c+1)·q |
| `Models.Row.Recomputed` | app/models.py:85-94 | after recomputing, `coverage_lrvs` is the truncated coverage (0 without a positive per-LRV quantity) and every other column is unchanged |
| `Models.FreshRow` | app/models.py:9-33 | a new row has its part number and every other column null |
| `Models.Part.constructor` | app/models.py:5-33 | a new object holds the fresh row for its part number |
| `Models.Part.LrvCoverage` | app/models.py:68-73 | `lrv_coverage` is the row's coverage: 0.0 without a positive per-LRV quantity, otherwise non-negative for non-negative stock |
| `Models.Part.CalculateLrvCoverage` | app/models.py:85-94 | returns exactly `lrv_coverage` and stores its truncation in `coverage_lrvs`, changing no other field |
| `Models.Part.CalculateNeededForTrains` | app/models.py:96-98 | the per-LRV quantity times the number of trains, with a null quantity as 0 |
| `Models.Part.ConsumableOrEssential` | app/models.py:75-78 | the type when it is set and non-empty, otherwise 'Long Lead'; never empty |
| `Models.RecomputedIdempotent` | app/models.py:85-94 | a second `calculate_lrv_coverage` changes nothing and returns the same coverage |
| `Models.LowStockIffBelowThreshold` | app/models.py:100-102 | with a positive per-LRV quantity, `is_low_stock(t)` holds exactly when the stock is below t LRVs' worth |
| `Models.Part.IsLowStock` | app/models.py:100-102 | an empty part is low on stock for every positive threshold; without a positive per-LRV quantity a part is low on stock exactly when the threshold is positive |
| `Forms.ValidDelivery` | app/forms.py:7-15 | an accepted delivery has a part number of 1 to 100 characters and a positive quantity |
| `Forms.ValidStockAdjustment` | app/forms.py:18-35 | an accepted adjustment has a part number and user name of 1 to 100 characters, a positive quantity, and type 'increase' or 'decrease' |
| `Forms.ValidBomItem` | app/forms.py:38-52 | an accepted item has a part number, name and supplier within their lengths, a positive per-LRV quantity, no negative quantity, and a blank type or one of the two choices |
| `Forms.ValidTrainCalculator` | app/forms.py:70-73 | an accepted train count is between 1 and 1000 |
| `Routes.IndexOf` | app/routes.py:124 | `filter_by(part_number).first()`: the first row with that number, or none exactly when no row has it |
| `Routes.UniqueAfterUpdate` | app/routes.py:125-130 | replacing a row by one with the same part number keeps part numbers unique |
| `Routes.IndexOfUnique` | app/routes.py:124 | in a catalog of unique part numbers, the lookup finds the row that has the number |
| `Routes.Max0` | app/routes.py:171 | `max(0.0, x)` is non-negative, at least x, and either 0 or x |
| `Routes.Delivered` | app/routes.py:128-130 | a delivery raises the stock (null as 0) by the quantity received, recomputes the coverage, and changes no other column |
| `Routes.Adjusted` | app/routes.py:167-174 | 'increase' adds the quantity; any other type sets the stock to max(0, stock − quantity); the coverage is recomputed; no other column changes |
| `Routes.DecreaseNeverNegative` | app/routes.py:170-171 | a decrease never leaves negative stock; it subtracts exactly when the stock suffices, and gives 0 otherwise |
| `Routes.IncreaseThenDecrease` | app/routes.py:167-171 | from non-negative stock, an increase followed by a decrease of the same quantity restores the stock |
| `Routes.Shipped` | app/routes.py:339-341 | shipping lowers the stock and raises the shipped-out quantity by the same amount, recomputes the coverage, and changes no other column |
| `Routes.ShipAllStep` | app/routes.py:328-344 | the loop over items is the fold of the per-item step |
| `Routes.ShipAll` | app/routes.py:328-344 | the item loop keeps the number of rows and ships at most one per item |
| `Routes.ShipItemConserves` | app/routes.py:332-341 | one item keeps the part numbers, conserves stock plus shipped-out for every part, and keeps non-negative stock non-negative |
| `Routes.ShipItemApplied` | app/routes.py:332-342 | an item is shipped only if its quantity is positive, its part exists, and that part's stock covers the quantity; exactly that row is changed |
| `Routes.ShipAllConserves` | app/routes.py:328-344 | the whole loop conserves stock plus shipped-out per part, keeps stock non-negative, keeps the part numbers, and counts at most one per item |
| `Routes.ShipAllSkipsNonPositive` | app/routes.py:332-333 | items with non-positive quantities change nothing and count nothing |
| `Routes.DivisionIndex` | app/routes.py:347 | the division lookup finds a division with that name, or none exactly when no division has it |
| `Routes.WithDivision` | app/routes.py:347-350 | afterwards the division exists; an existing one is left alone, otherwise exactly one is appended |
| `Routes.NewRow` | app/routes.py:291-306 | the new part has the form's part number, name, supplier, description, type, notes, per-LRV quantity, on-site quantity and stock; nothing shipped out or back-ordered; `total_needed_for_233_lrv` = per-LRV quantity × 233; and its coverage computed |
| `Routes.NewRowConsistent` | app/routes.py:302-306 | a valid new part has non-negative coverage, and its 233-LRV total is `calculate_needed_for_trains(233)` |
| `Routes.Shortage` | app/routes.py:198-200 | the shortage is never negative; it is 0 exactly when the stock meets the need, and otherwise stock plus shortage is the need |
| `Routes.ResultFor` | app/routes.py:201-208 | a result carries its part's number, and a shortage that is non-negative and 0 exactly when the stock covers the need |
| `Routes.ResultsFor` | app/routes.py:213-225 | one result per catalog part, in catalog order |
| `Routes.InsertByShortage` | app/routes.py:228 | insertion adds exactly one element and keeps a list sorted by non-increasing shortage |
| `Routes.SortByShortage` | app/routes.py:228 | the sort is a permutation of its input, sorted by non-increasing shortage |
| `Routes.SortIsStable` | app/routes.py:228 | the sort is stable: results with equal shortage keep their order |
| `Routes.AllPartsCalculation` | app/routes.py:212-228 | the all-parts calculator is sorted by shortage, is a permutation of one result per part, and keeps catalog order among equal shortages |
| `Routes.Where` | app/routes.py:17-32 | a filter keeps at most all of the rows |
| `Routes.WhereMembers` | app/routes.py:17-32 | a filter keeps exactly the rows that satisfy its condition |
| `Routes.WhereAppend` | app/routes.py:30-32 | filtering keeps catalog order: it distributes over concatenation |
| `Routes.WhereCountsIndices` | app/routes.py:17-24 | `filter(...).count()` is the number of catalog positions whose row satisfies the condition |
| `Routes.LikeAnything` | app/routes.py:239-241 | the pattern `%` matches every string |
| `Routes.LikePrefix` | app/routes.py:239-241 | a wildcard-free query followed by `%` matches exactly the strings that start with it, ignoring ASCII case |
| `Routes.LikeAnySuffix` | app/routes.py:239-241 | `%` followed by a pattern matches exactly when the pattern matches some suffix |
| `Routes.ContainsLikeIff` | app/routes.py:239-241 | for a query without `%` or `_`, `contains` holds exactly when the query occurs somewhere, ignoring ASCII case |
| `Routes.ContainsMatchesLike` | app/routes.py:239-241 | a wildcard-free query that occurs verbatim always matches |
| `Routes.MatchIgnoresCase` | app/routes.py:239-241 | the query "abc" finds the part number "ABC-1" |
| `Routes.UnderscoreIsWildcard` | app/routes.py:239-241 | the query "A_C" finds the part number "AXC-7", because `_` is not escaped |
| `Routes.Matching` | app/routes.py:239-241 | a row matches exactly when the query matches, as SQL LIKE `%q%`, its part number or its non-null part name; matches stay in catalog order |
| `Routes.Autocomplete` | app/routes.py:235-244 | a query shorter than 2 gives []; otherwise the suggestions of the first 10 parts matching by SQL LIKE, in catalog order, so each comes from a distinct matching row and all matches appear when there are at most 10 |
| `Routes.CountLowStock` | app/routes.py:17-19 | the low-stock count is the number of catalog positions whose part has coverage below 10 |
| `Routes.CountOutOfStock` | app/routes.py:22-24 | the out-of-stock count is the number of catalog positions whose part has stock ≤ 0 |
| `Routes.LowStockItems` | app/routes.py:30-32 | the alert list has at most `limit` items, each a low-stock part of the catalog, and its length is the smaller of `limit` and the low-stock count |
| `Routes.FirstWhereInOrder` | app/routes.py:30-32 | `filter(p).limit(n)`, scanning the catalog, gives the rows that pass in catalog order, cut off after n |
| `Routes.LowStockItemsComplete` | app/routes.py:30-32 | with at most `limit` low-stock parts, every one of them is listed |
| `Routes.OutOfStockIsLowStock` | app/routes.py:17-24 | a part with stock ≤ 0 has coverage below 10 |
| `Routes.OutOfStockAtMostLowStock` | app/routes.py:17-24 | there are never more out-of-stock parts than low-stock parts |
| `Routes.SumStockNonNegative` | app/routes.py:35-37 | with non-negative stocks the total stock is non-negative |
| `Routes.Dashboard` | app/routes.py:404-414 | total parts is the catalog size; the low-stock and out-of-stock counts are those of the filters, with out-of-stock ≤ low-stock ≤ total; the total stock is `int()` of the sum, non-negative when every stock is; the alert list is the first 15 low-stock parts |
| `Routes.Inventory.RecordDelivery` | app/routes.py:111-133 | a known part gets the delivered stock and a linked delivery record; an unknown one gets an unlinked record and no row changes |
| `Routes.Inventory.AdjustStock` | app/routes.py:148-177 | an unknown part changes nothing and reports not found; a known one gets the adjustment applied and recorded |
| `Routes.Inventory.AddPart` | app/routes.py:283-309 | an existing part number is rejected and nothing changes; otherwise exactly the new row is appended |
| `Routes.Inventory.ExportShipment` | app/routes.py:323-355 | the rows and `total_shipped` are those of the item loop, and the named division exists afterwards |
| `Routes.Inventory.TrainCalculator` | app/routes.py:190-228 | a blank part number gives the sorted all-parts results; a known number gives that part's one result; an unknown one gives none and reports not found |
| `Routes.Inventory.CalculateAll` | app/routes.py:213-228 | the loop's results, sorted, are one result per part sorted by shortage |
| `MigrateExcel.CollapseSpaces` | migrate_excel_data.py:65 | `re.sub(r"\s+", " ", s)` is no longer than s and starts with a space exactly where s starts with whitespace |
| `MigrateExcel.NormalizeHeaderName` | migrate_excel_data.py:53-66 | a missing header is ""; a present one gives a result no longer than itself with nothing to strip at either end |
| `MigrateExcel.CollapseSpacesShape` | migrate_excel_data.py:65 | after collapsing, every whitespace character is a plain space and no two are adjacent |
| `MigrateExcel.CollapseOfCollapsed` | migrate_excel_data.py:65 | collapsing text that is already collapsed changes nothing |
| `MigrateExcel.StripKeepsShape` | migrate_excel_data.py:65 | stripping keeps text collapsed |
| `MigrateExcel.ReplaceBreaks` | migrate_excel_data.py:63-64 | replacing NBSP, CR, LF and TAB by spaces keeps the length |
| `MigrateExcel.NormalizedHeaderShape` | migrate_excel_data.py:61-66 | a normalised header has no NBSP, CR, LF or TAB, no outer whitespace, and no two adjacent spaces |
| `MigrateExcel.NormalizeHeaderIdempotent` | migrate_excel_data.py:53-66 | normalising a normalised header changes nothing |
| `MigrateExcel.SquashOthers` | migrate_excel_data.py:88 | after `[^a-z0-9]+` becomes a space, only lower-case letters, digits and spaces remain |
| `MigrateExcel.SimplifyIgnoresCase` | migrate_excel_data.py:86-90 | the tolerant key ignores case |
| `MigrateExcel.Distinct` | migrate_excel_data.py:73 | the found columns as dict keys: the same names, each once |
| `MigrateExcel.LastIndex` | migrate_excel_data.py:76 | `reverse_norm` keeps the last column with a given normalised name |
| `MigrateExcel.FirstIndex` | migrate_excel_data.py:93-95 | `candidates[0]` is the first column, in column order, with the tolerant key |
| `MigrateExcel.PickSpec` | migrate_excel_data.py:81-97 | an exact normalised match is used first; otherwise the first column with the same tolerant key, and none exactly when no column has that key |
| `MigrateExcel.Choose` | migrate_excel_data.py:80-97 | the column chosen for an expected name is one of the found columns |
| `MigrateExcel.ChooseExact` | migrate_excel_data.py:81-83 | when some column normalises to the expected name, the chosen one does |
| `MigrateExcel.ChooseTolerant` | migrate_excel_data.py:84-95 | without an exact match, a chosen column has the expected name's tolerant key |
| `MigrateExcel.ChooseTolerantFound` | migrate_excel_data.py:92-95 | without an exact match, a column with the same tolerant key means a column is chosen |
| `MigrateExcel.AssignSpec` | migrate_excel_data.py:78-97 | the loop's `missing` lists exactly the expected names without a column, and `mapping` maps each chosen column to a name that chose it |
| `MigrateExcel.ChoicesSpec` | migrate_excel_data.py:80-97 | each expected name's choice is made independently of the others |
| `MigrateExcel.MapHeaders` | migrate_excel_data.py:78-105 | the loop fills `mapping` and `missing` as `Assign` says, and fails with `missing` when it is non-empty |
| `MigrateExcel.BuildHeaderMap` | migrate_excel_data.py:68-105 | `build_header_map` over the 16 expected columns |
| `MigrateExcel.HeaderMapFailsIff` | migrate_excel_data.py:99-105 | the map fails exactly when some expected name finds no column, and then it lists exactly those names |
| `MigrateExcel.HeaderMapSound` | migrate_excel_data.py:78-105 | on success each expected name's column is mapped, and each mapped column is the choice of the name it maps to |
| `MigrateExcel.CleanText` | migrate_excel_data.py:110-112 | an empty cell cleans to None |
| `MigrateExcel.CleanTextShape` | migrate_excel_data.py:113-116 | cleaned text is non-empty, stripped, free of NBSP, and no NA token in any case |
| `MigrateExcel.CleanTextIdempotent` | migrate_excel_data.py:110-116 | cleaning cleaned text gives it back |
| `MigrateExcel.CleanTextDropsNaTokens` | migrate_excel_data.py:113-115 | blank text and NA tokens, compared case-insensitively, clean to None |
| `MigrateExcel.CleanTextOfPlain` | migrate_excel_data.py:113-116 | text without whitespace that holds a digit is kept as it is |
| `MigrateExcel.CleanTextKeepsIntegers` | migrate_excel_data.py:113-116 | an integer cell cleans to its decimal text |
| `MigrateExcel.Compact` | migrate_excel_data.py:132 | removing commas and whitespace leaves neither and never lengthens the text |
| `MigrateExcel.CompactIdempotent` | migrate_excel_data.py:132 | removing them twice is removing them once |
| `MigrateExcel.ToNumber` | migrate_excel_data.py:118-140 | null and NaN give None; booleans give 1.0 or 0.0; integers and floats are taken as they are |
| `MigrateExcel.ToNumberOfText` | migrate_excel_data.py:128-140 | a text cell is cleaned, then read as a number |
| `MigrateExcel.ToNumberReadsLeadingNumeral` | migrate_excel_data.py:128-138 | text whose compacted form starts with a numeral gives that numeral's exact value, whatever follows it ("12758.928 ft" gives 12758.928) |
| `MigrateExcel.ReadNumberOfNumeral` | migrate_excel_data.py:132-138 | the numeric prefix is read exactly, whatever text follows |
| `MigrateExcel.ToNumberDropsNaTokens` | migrate_excel_data.py:128-130 | blank text and NA tokens give None |
| `MigrateExcel.ToNumberReapplied` | migrate_excel_data.py:119-127 | a number or None that `to_number` produced reads back unchanged |
| `MigrateExcel.ComputeHelpers` | migrate_excel_data.py:142-155 | the coverage exists exactly when the per-LRV quantity is positive and the stock is present; the shortfall exists exactly when the total and the stock are both present |
| `MigrateExcel.CoverageBracketsStock` | migrate_excel_data.py:148-149 | the floored coverage c satisfies c·q ≤ stock < (c+1)·q |
| `MigrateExcel.ShortfallSpec` | migrate_excel_data.py:152-153 | the shortfall is never negative; it is 0 exactly when the stock meets the total, and otherwise stock plus shortfall is the total |
| `MigrateExcel.ConvertRow` | migrate_excel_data.py:265-269 | numeric columns are converted as numbers and every other column as text |
| `MigrateExcel.ConvertRowReads` | migrate_excel_data.py:265-269 | a numeric column holds `to_number` of its cell, any other column `clean_text` of its cell |
| `MigrateExcel.RecordOf` | migrate_excel_data.py:284-315 | a row gives a record exactly when its part number is present, and the record carries that part number |
| `MigrateExcel.PartNumberClean` | migrate_excel_data.py:285-290 | a recorded part number is non-empty, stripped, and not an NA token |
| `MigrateExcel.RecordHelpersAgree` | migrate_excel_data.py:271-274 | a record's coverage and shortfall are computed from its own per-LRV quantity, stock and total, with the bracket and sign properties above |
| `MigrateExcel.BuildRecords` | migrate_excel_data.py:283-315 | the loop produces the records of the rows, in row order |
| `MigrateExcel.RecordsOfAppend` | migrate_excel_data.py:283-315 | the records of two row sequences are the records of each, concatenated |
| `MigrateExcel.RecordsOfSpec` | migrate_excel_data.py:284-287 | rows without a part number give no record, every row with one gives its record, and no record comes from anywhere else |
| `SeedBom.Collapsed` | app/seed_bom_drom_tsv.py:66-67 | a whole float becomes the equal int, any other float stays as it is |
| `SeedBom.CoerceNumber` | app/seed_bom_drom_tsv.py:49-70 | the result is a number or None, never text, and a note comes only with a float from the `25(16)` form or with None |
| `SeedBom.CoerceNullTexts` | seed_bom_drom_tsv.py:50-52 | None, NaN and (after strip) "", "#VALUE!", "NA", "N/A", "None", "-" give None and no note |
| `SeedBom.CoerceParenForm` | seed_bom_drom_tsv.py:54-59 | `<num> (<extra>)` gives the base as a float and exactly one note, which names the text, the base and the extra |
| `SeedBom.CoerceReadsNumeral` | app/seed_bom_drom_tsv.py:63-67 | text that is a numeral once commas are removed gives its exact value, collapsed, and no note |
| `SeedBom.CoerceReadsInteger` | seed_bom_drom_tsv.py:63-67 | an integer numeral, with or without thousands commas, gives an int (12.0 becomes 12) |
| `SeedBom.CoerceKeptAsText` | seed_bom_drom_tsv.py:68-70 | text that is no null token, no `25(16)` form, and does not parse gives None and one "Kept as text" note |
| `SeedBom.NormalizeColumns` | app/seed_bom_drom_tsv.py:88 | header normalisation keeps the number of columns |
| `SeedBom.NewlineColumnNeverPresent` | app/seed_bom_drom_tsv.py:30 | after header normalisation no column is named "Back Order \nQty", so that field-map entry never applies |
| `SeedBom.TextCell` | app/seed_bom_drom_tsv.py:102 | a text attribute is None or non-empty stripped text |
| `SeedBom.KeyIndex` | app/seed_bom_drom_tsv.py:103 | the payload position of a key, or none exactly when the key is absent |
| `SeedBom.PutGetSame` | app/seed_bom_drom_tsv.py:103 | after `payload[attr] = val`, the attribute reads `val` |
| `SeedBom.PutGetOther` | app/seed_bom_drom_tsv.py:103 | setting one attribute leaves every other one as it was |
| `SeedBom.PutKeys` | app/seed_bom_drom_tsv.py:103 | keys stay unique, and the key set gains exactly the attribute set |
| `SeedBom.BuildPayload` | app/seed_bom_drom_tsv.py:93-103 | the loop builds the payload and note list of the row |
| `SeedBom.PayloadKeys` | app/seed_bom_drom_tsv.py:95-103 | the payload holds exactly the attributes of field-map entries whose column is present |
| `SeedBom.PayloadGet` | app/seed_bom_drom_tsv.py:95-103 | an attribute holds the value of the last present column that maps to it |
| `SeedBom.PayloadWellTyped` | app/seed_bom_drom_tsv.py:99-102 | numeric attributes hold numbers or None, and all others text or None |
| `SeedBom.PayloadNotesSolid` | app/seed_bom_drom_tsv.py:56-69 | every accumulated note is non-empty and has no outer whitespace |
| `SeedBom.MergedNotesExact` | app/seed_bom_drom_tsv.py:112 | with stripped existing notes, the final `.strip()` of the merged notes removes nothing |
| `SeedBom.MergeNotesSpec` | seed_bom_drom_tsv.py:110-113 | with notes to add, the notes become the existing notes, then the bar separator only when they are non-empty, then the added notes joined by "; "; with none, the payload is unchanged |
| `SeedBom.ColumnOf` | app/seed_bom_drom_tsv.py:128-129 | an attribute is stored in a numeric column exactly when it is numeric, and in the notes exactly when it is `notes` |
| `SeedBom.ColumnOfInjective` | app/seed_bom_drom_tsv.py:128-129 | distinct attributes are stored in distinct columns |
| `SeedBom.StoreLoad` | app/seed_bom_drom_tsv.py:129 | a stored column reads back what was stored, and the other columns are unchanged |
| `SeedBom.SetAttr` | app/seed_bom_drom_tsv.py:129 | setting an attribute keeps the part number, type, 233-LRV total and coverage, and the notes unless it sets them |
| `SeedBom.SetAttrSpec` | app/seed_bom_drom_tsv.py:129 | after `setattr(obj, k, v)`, k reads v and every other attribute reads as before |
| `SeedBom.AliasReadsBack` | app/seed_bom_drom_tsv.py:129 | setting `qty_per_lrv`, `qty_current_stock` or `qty_shipped_out` makes the alias read the value (null as 0) |
| `SeedBom.AppendNote` | app/seed_bom_drom_tsv.py:133-134 | appending a note always leaves notes |
| `SeedBom.AppendNotesKeeps` | app/seed_bom_drom_tsv.py:130-134 | appended notes keep the earlier notes as a prefix and contain every "k=v" note |
| `SeedBom.SetAll` | app/seed_bom_drom_tsv.py:125-129 | setting the model's attributes keeps the part number, type, 233-LRV total and coverage |
| `SeedBom.SetAllReads` | app/seed_bom_drom_tsv.py:125-129 | after the loop each model attribute reads the payload's value, or its old value when the payload lacks it |
| `SeedBom.AppliedReads` | app/seed_bom_drom_tsv.py:125-134 | after the corrected loop, each model attribute other than the notes reads the payload's value, or its old value when the payload lacks it |
| `SeedBom.ExtrasKept` | app/seed_bom_drom_tsv.py:130-134 | the corrected loop keeps every "k=v" note in the notes, after the notes the loop set |
| `SeedBom.AppliedAgreesAsWritten` | app/seed_bom_drom_tsv.py:125-134 | without aliases or `notes` in the payload, the loop as written and the corrected one agree |
| `SeedBom.ApplyPayload` | app/seed_bom_drom_tsv.py:125-134 | the write loop, corrected: model attributes are set, then each "k=v" note is appended |
| `SeedBom.AliasWriteRaises` | app/seed_bom_drom_tsv.py:128-129 | as written, a payload with `qty_per_lrv` raises; corrected, the alias reads the value |
| `SeedBom.ApplyAsWritten` | app/seed_bom_drom_tsv.py:125-134 | the write loop as written raises whenever the payload holds a property alias, and an empty payload leaves the row as it was |
| `SeedBom.ExtrasBeforeNotesLost` | app/seed_bom_drom_tsv.py:125-134 | as written, the note for `num_cars` is overwritten by the later `notes`; corrected, it follows them |
| `SeedBom.Upsert` | app/seed_bom_drom_tsv.py:116-141 | the part number is in the table afterwards with its coverage recomputed; other parts are unchanged; exactly one of created and updated goes up, by whether the part existed |
| `SeedBom.SeedRowEffect` | app/seed_bom_drom_tsv.py:105-141 | a row without a part number only increments `skipped`; a row with one upserts that part, counting it once |
| `SeedBom.SeedStep` | app/seed_bom_drom_tsv.py:92-141 | one pass of the row loop, with its payload, notes, lookup and counters, is the per-row step `SeedRow` |
| `SeedBom.SeedCounts` | seed_bom_drom_tsv.py:90-122 | created + updated + skipped grows by the number of rows, and skipped by the rows without a part number |
| `SeedBom.SeedKeys` | app/seed_bom_drom_tsv.py:116-122 | the table afterwards holds exactly the old part numbers and those of the rows |
| `SeedBom.SeedSize` | app/seed_bom_drom_tsv.py:116-122 | the table grows by exactly the number of parts created |
| `SeedBom.SeedKeepsKeyed` | app/seed_bom_drom_tsv.py:116-119 | each part stays stored under its own part number |
| `SeedBom.SeedTouches` | app/seed_bom_drom_tsv.py:116-141 | parts no row names are unchanged, and every part a row names has its coverage recomputed |
| `SeedBom.Seed` | app/seed_bom_drom_tsv.py:83-144 | the row loop of `main`, with the counters, is the fold of the per-row step |

## Left out

- Flask plumbing: routing, templates, `flash`, redirects, CSRF, pagination, the JSON decoding of the shipment data, and the recent-delivery and recent-adjustment lists.
- Persistence: sessions, commits and rollbacks, the upsert statement and schema creation of the Excel import, and the Alembic migration. A handler's effect is modelled as committed.
- `edit_part` and the list, search and division views: they are outside the modelled core.
- Startup and configuration: `create_app` and `health` in app.py, app/__init__.py, config.py, run.py, start.py and setup_dashboard.py.
- The other bulk-load scripts: init_database.py, import_delivery_log.py and seed_bom_from_tsv.py.
- Date and time columns: `date_received`, `date_expected`, `created_at`, `updated_at`, and the division timestamp at app/routes.py:353.
- Reading the TSV or Excel file: the model takes the header and rows as given.
- SeedBom.Seed: `load_frame` reads with `fillna("")` (app/seed_bom_drom_tsv.py:76), so pandas' default NA strings ("NA", "N/A", "NULL", "nan", "None", "n/a", "#N/A" and the like) arrive as `""`. The model does not perform that conversion: `Frame` is taken to hold the cells after it. Given the raw file text instead, `SeedRow` would store a row whose part number is "NA", which the script skips.
- Routes.LowStockItems, Routes.Dashboard, Routes.Autocomplete: `.limit(15)` at app/routes.py:30-32 and `.limit(10)` at app/routes.py:239-241 have no `order_by`, so SQL does not fix which rows come back. The model returns the first ones in catalog order, which is one admissible answer among several.
- SeedBom.CellOf: where two sheet headers normalise to the same name at app/seed_bom_drom_tsv.py:88 and are read at line 98 (for example "Notes" and "Notes "), `row[col]` in pandas is a Series, and `str()` and `coerce_number` see its printed form. The model reads the cell under the first such column instead.
- Floating point: quantities are exact reals, so binary rounding is not modelled.
- Python `float()` on text outside the numeral grammar (".5", "inf", "nan", underscores) is the parameter `parseFloat`. How `str()` prints a float is the parameter `floatRepr`.
- Unicode: whitespace is the `str.isspace` set, and case mapping covers ASCII letters only. Digits are the ASCII `0`–`9` only, whereas Python's `\d` and `float()` accept every Unicode decimal digit ("12٣" reads as 123). This narrows `MigrateExcel.ToNumber`, `MigrateExcel.ReadNumber` and `SeedBom.CoerceNumber`: text with non-ASCII digits goes to `parseFloat` or stays text.
- WTForms parsing: how an empty or non-numeric number field is coerced, and the CSRF token. The model takes each field's parsed value.
- The dashboard filters on `lrv_coverage` and `qty_current_stock` at class level. SQLAlchemy cannot turn those Python properties into SQL, so as written the query fails. The model uses the property values.
- Routes.Inventory.ExportShipment: commits the shipment. As written, the missing `datetime` import at app/routes.py:353 raises, and the handler rolls the shipment back.
- Routes.Inventory.RecordDelivery, Routes.Inventory.AdjustStock, Routes.Inventory.ExportShipment: write to the stored columns that the read-only aliases read. As written, the assignments at app/routes.py:129, 169, 171, 339 and 340 raise `AttributeError`.
- Routes.NewRow: `add_part` passes alias keywords and `total_needed_233_lrv`, which is not a column. As written the constructor raises. The model stores each value in the column it evidently means. The `component` keyword is dropped, because its alias reads `description`, which the `description` keyword already sets.
- Routes.Matching, Routes.Autocomplete: LIKE is evaluated as SQLite does, the engine config.py:9-10 selects when `DATABASE_URL` is unset. On PostgreSQL LIKE is case-sensitive, so there the query "abc" would not find "ABC-1". SQLite's case folding covers ASCII letters only, as the model's does.
- SeedBom.Upsert, SeedBom.Seed, SeedBom.SeedStep, SeedBom.SeedRowEffect, SeedBom.SeedKeys, SeedBom.SeedTouches: use the corrected write loop `SeedBom.ApplyPayload`. As written, the payload holds every mapped column the sheet has, so a sheet with any of the columns "Component", "Qty per LRV", "Qty on Site", "Shipped out of store", "Qty actually remaining" or "Back Order Qty" makes app/seed_bom_drom_tsv.py:129 raise at its first row with a part number, and nothing is committed (`SeedBom.ApplyAsWritten`).
- DbUrl.NormalizeIdempotent: excludes the result "". Whitespace-only input normalises to "", and a second call maps "" to None.
- Models.Part.IsLowStock: the threshold is a real with default 10.0, where Python passes the int 10.

## Findings

| source | as written | input that shows it | evidently intended | confidence | as-written member | corrected member |
|---|---|---|---|---|---|---|
| app/seed_bom_drom_tsv.py:128-129 | `hasattr` is true for the read-only aliases `qty_per_lrv`, `qty_on_site`, `qty_shipped_out`, `qty_current_stock`, `back_order_qty` and `component`, so `setattr` raises `AttributeError` | a row whose "Qty per LRV" cell is 2 | store the value in the column the alias reads | high; not executed | `SeedBom.AliasWriteRaises` | `SeedBom.ApplyPayload` |
| app/seed_bom_drom_tsv.py:125-134 | a "k=v" note for an attribute the model lacks is appended to `obj.notes`. The `notes` attribute, set later in the same loop, then overwrites it | a payload with `num_cars` = 4 followed by `notes` = "abc" ends with notes "abc" | keep the note after the existing notes, separated by a bar | high; not executed | `SeedBom.ExtrasBeforeNotesLost` | `SeedBom.ApplyPayload` |
