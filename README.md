# Material accounting core, modelled in Dafny

This project models the logic of a small desktop system that tracks raw materials
for a production workshop. The logic has four parts:

- **The Excel import** (`database/load_data.py`). Five loaders fill the store from
  spreadsheets: material types, materials, product types, products, and the
  material–product links.
  - The two type loaders append one category per row.
  - The material and product loaders upsert by natural key: the trimmed name or the
    trimmed article.
  - The link loader deletes every link and rebuilds the table from the sheet.
  - `load_all_data` runs the five loaders in a fixed order.
- **The material service** (`business/material_service.py`):
  - looking up a material by id;
  - adding and updating a material from the form's fields;
  - the required-quantity total of a material over its links;
  - the yield calculation, which returns `-1` as a sentinel.
- **The schema** (`database/models.py`): the five tables with their not-null,
  unique and default constraints.
- **The search filter** of the main window (`filter_materials` in
  `gui/main_window.py`), as a pure function of the listed materials and the four
  input boxes.

The store is `Store.Database`. It is a class whose five `seq` fields are reassigned
when a transaction commits. `Models.Tables` is its value, and
`Models.Consistent` is the state every operation keeps:

- ids are the row positions plus one;
- material names and product articles are unique;
- every category reference and every link points to a stored row.

Each loader is a method with a loop over the sheet's rows, proved against a
specification function of the old store and the sheet. The specification either
returns the new store or the exception that aborts the batch. Lemmas then state what
that function means: appends, upserts, idempotence, skipped rows, the full replace,
and consistency.

A sheet is a list of column headers, a flag saying whether every header is a
string, and rows of cells. A cell is `Blank` (pandas
NaN) or `Filled` with the text `str()` gives. Numbers are read by
`Text.ParseFloat`, a decimal reading of Python's `float`. The loaders read them after
turning a comma into a point (`Text.ParseCommaFloat`).

### Where the code and its design description disagree (the model follows the code)

- **The type loaders do not upsert.** `session.merge` gets an object without a
  primary key, which is a plain insert. Each run appends every row again, so
  repeated names give duplicate categories (`TypeLoader.MaterialTypeBatchDuplicates`).
- **A bad coefficient is not stored as null.**
  - A coefficient that is not a number raises ValueError and aborts the whole
    product-type batch.
  - A blank coefficient becomes `None`, and the NOT NULL constraint on
    `ProductType.coefficient` fails at the next flush. `merge` flushes the session
    first, so the next row's `merge` fails, or the commit does if the row is the
    last. The next row's cells are read before its `merge`, so a next row that
    cannot be read raises its own error instead. Either way the whole batch is lost
    (`TypeLoader.BlankCoefficientAbortsBatch`).
- **The link refresh is not old-set-or-new-set.** The delete is committed before any
  row is read. A run that raises later (a missing column, say) leaves the store with
  no links at all (`LinkLoader.LinkBatchLinks`, `LinkLoader.MissingColumnClearsLinks`).
  Only a header that is not a string stops the run before the delete: its `strip`
  raises, and the links are kept.
- **`create_tables` keeps existing data.** It is `create_all`, which creates only the
  missing tables. `load_all_data` therefore starts from whatever the store holds, not
  from an empty store (`DataLoad.LoadAllData`).
- **An unknown category in `add_material` / `update_material` is not caught.** The
  ValueError propagates, because only SQLAlchemy errors are caught. A duplicate
  material name is an IntegrityError at commit: it is caught and gives `None`.
- **A null stock quantity can break the filter.** When a quantity bound is active and
  a listed material has a null stock quantity, the comparison raises TypeError.
  `filter_materials` does not catch it, so no list is produced (`None` in the model).

## Model

| member | source | states |
|---|---|---|
| Models.MaterialTypeNamed | database/load_data.py:36 | the first material type whose name equals the text exactly, or none when no type has that name |
| Models.ProductTypeNamed | database/load_data.py:110 | the first product type whose name equals the text exactly, or none when no type has that name |
| Models.MaterialNamed | database/load_data.py:41 | the first material with exactly that name, or none when no material has it |
| Models.ProductWithArticle | database/load_data.py:115 | the first product with exactly that article, or none when no product has it |
| Models.MaterialWithId | business/material_service.py:109 | a material with that id, or none when no material has it |
| Models.ProductWithId | business/material_service.py:121 | a product with that id, or none when no product has it |
| Models.ProductTypeWithId | business/material_service.py:171-173 | a product type with that id, or none when no type has it |
| Models.MaterialIdIsPosition | database/models.py:26 | in a store numbered 1, 2, 3, … the material with id n is at position n − 1, and no other id is found |
| Models.ProductIdIsPosition | database/models.py:51 | in a store numbered 1, 2, 3, … the product with id n is at position n − 1, and no other id is found |
| Store.Database.constructor | database/load_data.py:215 | a new store file has all five tables, all empty, and is consistent |
| Text.TrimStartShape | database/load_data.py:17 | `lstrip` removes a run of white space from the front: the result is a suffix of the input, everything removed is white space, and the result does not start with white space |
| Text.TrimEndShape | database/load_data.py:17 | `rstrip` removes a run of white space from the end: the result is a prefix, everything removed is white space, and the result does not end with white space |
| Text.StripWindow | database/load_data.py:17 | `strip` keeps one window of the input, with only white space outside it and no white space at its edges |
| Text.StripUnpadded | database/load_data.py:17 | text without white space at its edges is unchanged by `strip` |
| Text.StripIdempotent | database/load_data.py:17 | stripping twice is stripping once |
| Text.LowerChar | database/load_data.py:148 | lower-casing a character keeps white space as white space, and keeps any other character out of it |
| Text.Lower | database/load_data.py:148 | lower-casing keeps the length of the text and keeps white space exactly where it was |
| Text.LowerIdempotent | database/load_data.py:148 | lower-casing twice is lower-casing once |
| Text.TrimStartLower | database/load_data.py:158 | `lstrip` and `lower` commute |
| Text.TrimEndLower | database/load_data.py:158 | `rstrip` and `lower` commute |
| Text.StripLowerCommute | database/load_data.py:158 | `name.lower().strip()`, which builds the dictionaries, equals `str(cell).strip().lower()`, which is looked up |
| Text.ReplaceComma | database/load_data.py:45 | `replace(',', '.')` keeps the length, leaves no comma, and changes no other character |
| Text.PointIndex | database/load_data.py:45 | finds the first decimal point, or none when there is no point |
| Text.ParseFloatIgnoresPadding | database/load_data.py:181 | white space around a number never changes what `float` reads |
| Text.UnsignedDecimalValue | database/load_data.py:181 | `float` of a point-decimal `d…d.d…d` is its decimal value |
| Text.ParseDecimalComma | database/load_data.py:45-55 | with a decimal comma, `d…d,d…d` reads as the same value as with a point |
| Text.ParseNaturalText | database/load_data.py:181 | the decimal text of every natural number reads back as that number |
| Sheets.Get | database/load_data.py:17 | `row[column]` raises KeyError exactly when the header is missing |
| Sheets.OptionalText | database/load_data.py:47-48 | the unit is null exactly when its cell is blank |
| Sheets.OptionalNumber | database/load_data.py:45-55 | a number cell reads without error if and only if its column exists and the cell is blank or parses. A blank cell is null, never 0; a filled one holds the parsed value |
| Sheets.Values | database/load_data.py:15 | when every row reads, the values are the rows' readings in order |
| Sheets.ValuesPrefix | database/load_data.py:15 | reading one more row extends the values by that row's value |
| Sheets.FirstFaultAt | database/load_data.py:22 | the first row that raises decides the exception the batch stops with |
| Sheets.DropRead | database/load_data.py:15 | removing a row that reads without error does not change whether the batch raises, with what, or the other rows' values |
| TypeLoader.NewMaterialTypesAt | database/load_data.py:16-19 | the i-th new material type has the next id after those stored and the i-th name |
| TypeLoader.ReadMaterialTypes | database/load_data.py:15-19 | the loop yields the trimmed names in row order when every row reads, and otherwise stops with the exception of the first row that cannot be read |
| TypeLoader.FlushMaterialTypes | database/load_data.py:20 | the commit appends one category per pending name, numbered after those stored, and changes nothing else. A consistent store stays consistent |
| TypeLoader.LoadMaterialTypes | database/load_data.py:8-25 | the store after the loader is the batch's result if it commits, and the old store if any row raises. A consistent store stays consistent |
| TypeLoader.MaterialTypeBatchAppends | database/load_data.py:15-20 | the batch commits if and only if the sheet is empty or has the type column. It then appends one type per row, numbered on, named by the trimmed cell, and changes nothing else |
| TypeLoader.MaterialTypeBatchDuplicates | database/load_data.py:16-19 | loading the same sheet twice appends every name twice: there is no lookup by name |
| TypeLoader.MaterialTypesAppendConsistent | database/load_data.py:15-20 | appending categories numbered after those stored keeps the store consistent, whatever their names |
| TypeLoader.MaterialTypeBatchConsistent | database/load_data.py:15-20 | a committed batch keeps the store consistent |
| TypeLoader.NewProductTypesAt | database/load_data.py:88-93 | the i-th new product type has the next id after those stored, the i-th name and the i-th coefficient |
| TypeLoader.ReadProductTypes | database/load_data.py:87-93 | the rows read in order, or the first exception |
| TypeLoader.FlushProductTypes | database/load_data.py:93-94 | the session's flushes succeed if and only if no pending coefficient is null. They then append the pending types; otherwise the store is unchanged. A consistent store stays consistent |
| TypeLoader.LoadProductTypes | database/load_data.py:80-99 | the store after the loader is the batch's result if it commits, and the old store otherwise. A consistent store stays consistent |
| TypeLoader.ProductTypeReadCells | database/load_data.py:88-92 | a row reads with a coefficient exactly when both columns exist and the coefficient cell holds a number; the name is the trimmed cell and a blank cell gives a null coefficient |
| TypeLoader.ProductTypeBatchAppends | database/load_data.py:87-94 | the batch commits if and only if the sheet is empty, or both columns exist and every coefficient cell is filled and parses. It then appends one type per row with the trimmed name and the parsed coefficient, and changes nothing else |
| TypeLoader.BlankCoefficientAbortsBatch | database/load_data.py:90-94 | one blank coefficient makes the whole batch fail at a flush, and the store is unchanged |
| TypeLoader.ProductTypesAppendConsistent | database/load_data.py:87-94 | appending product types numbered after those stored, none with a null coefficient, keeps the store consistent |
| TypeLoader.ProductTypeBatchConsistent | database/load_data.py:87-94 | a committed batch keeps the store consistent |
| MaterialLoader.LoadMaterials | database/load_data.py:28-77 | the store after the loader is the batch's upsert if it commits, and the old store if any row raises. A consistent store stays consistent |
| MaterialLoader.LastFor | database/load_data.py:40-42 | the last row naming a material carries that name |
| MaterialLoader.NamedIsUnique | database/models.py:28 | with unique names, the lookup by a stored material's name finds that material |
| MaterialLoader.UpsertedMeaning | database/load_data.py:40-71 | one row leaves exactly one material with its name, carrying the row's fields. Other materials are untouched and ids and names are kept. An existing name changes no length; a new name appends one material with the next id |
| MaterialLoader.UpsertedKeeps | database/load_data.py:40-71 | one row never removes or renames a material, always leaves its name present, and keeps names unique |
| MaterialLoader.UpsertAllKeeps | database/load_data.py:35-71 | the rows never remove or renumber a stored material, and keep names unique |
| MaterialLoader.UpsertAllCovers | database/load_data.py:35-71 | after the rows, every name they carry is stored |
| MaterialLoader.UpsertAllSettles | database/load_data.py:35-71 | after the rows, every material holds what the last row naming it says |
| MaterialLoader.UpsertedMeaningOther | database/load_data.py:40-71 | a material whose name the row does not carry is left as it was |
| MaterialLoader.UpsertAllOverwrites | database/load_data.py:42-55 | each stored material ends as the last row naming it sets it (type, price, unit, package, stock, minimum; id and name kept), or unchanged. When every row names a stored material, nothing is added |
| MaterialLoader.UpsertAllIdempotent | database/load_data.py:35-71 | applying the same rows twice gives the same materials as once |
| MaterialLoader.UpsertAllAdds | database/load_data.py:56-71 | every added material's name is carried by some row |
| MaterialLoader.UpsertAllAppend | database/load_data.py:35 | rows are applied one after another: two runs of rows act as their concatenation |
| MaterialLoader.UpsertAllConsistent | database/load_data.py:35-71 | with rows whose categories exist, the materials stay numbered, uniquely named and typed |
| MaterialLoader.MaterialReadCells | database/load_data.py:36-71 | a row is skipped if and only if its trimmed type names no material type. Otherwise the row carries that type's id, the trimmed name, the trimmed unit or null, and each number cell read as a number or null |
| MaterialLoader.MaterialReadsTyped | database/load_data.py:36-44 | every row that is kept refers to a stored material type |
| MaterialLoader.MaterialBatchUpserts | database/load_data.py:35-72 | a committed batch changes only materials and keeps names unique. Each stored material holds what the last row naming it says, or is unchanged. Each name in the sheet is stored with that row's fields, and every added material comes from a row |
| MaterialLoader.MaterialBatchIdempotent | database/load_data.py:28-77 | re-running the same sheet gives the same store: no duplicate materials |
| MaterialLoader.MaterialBatchConsistent | database/load_data.py:35-72 | a committed batch keeps the store consistent |
| MaterialLoader.MaterialRowSkipped | database/load_data.py:36-39 | a row whose type is not found has the same effect as leaving it out: later rows still count |
| MaterialLoader.NonNumberAbortsMaterials | database/load_data.py:45-77 | a resolvable row with a number cell that does not parse aborts the batch, and the store keeps its old materials |
| ProductLoader.LoadProducts | database/load_data.py:102-139 | the store after the loader is the batch's upsert if it commits, and the old store if any row raises. A consistent store stays consistent |
| ProductLoader.LastFor | database/load_data.py:114-116 | the last row with an article carries that article |
| ProductLoader.ArticleIsUnique | database/models.py:54 | with unique articles, the lookup by a stored product's article finds that product |
| ProductLoader.UpsertedMeaning | database/load_data.py:114-133 | one row leaves exactly one product with its article, refreshed by the row. Other products are untouched and ids and articles are kept. A new article appends one product with the next id and the default quantity |
| ProductLoader.UpsertedKeeps | database/load_data.py:114-133 | one row never removes a product or changes an article, always leaves its article present, and keeps articles unique |
| ProductLoader.UpsertAllKeeps | database/load_data.py:109-133 | the rows never remove or renumber a stored product, and keep articles unique |
| ProductLoader.UpsertAllCovers | database/load_data.py:109-133 | after the rows, every article they carry is stored |
| ProductLoader.UpsertAllSettles | database/load_data.py:109-133 | after the rows, every product holds what the last row with its article says |
| ProductLoader.UpsertedMeaningOther | database/load_data.py:114-133 | a product whose article the row does not carry is left as it was |
| ProductLoader.UpsertAllOverwrites | database/load_data.py:116-122 | each stored product ends as the last row with its article sets it (name, type, minimum partner price), or unchanged. When every row names a stored article, nothing is added |
| ProductLoader.UpsertAllIdempotent | database/load_data.py:109-133 | applying the same rows twice gives the same products as once |
| ProductLoader.UpsertAllAdds | database/load_data.py:123-133 | every added product's article is carried by some row |
| ProductLoader.UpsertAllAppend | database/load_data.py:109 | two runs of rows act as their concatenation |
| ProductLoader.UpsertAllConsistent | database/load_data.py:109-133 | with rows whose categories exist, the products stay numbered, uniquely articled and typed |
| ProductLoader.ProductReadCells | database/load_data.py:110-132 | a row is skipped if and only if its trimmed type names no product type. Otherwise it carries that type's id, the trimmed article and name, and the price read as a number or null |
| ProductLoader.ProductReadsTyped | database/load_data.py:110-119 | every row that is kept refers to a stored product type |
| ProductLoader.ProductBatchUpserts | database/load_data.py:109-134 | a committed batch changes only products and keeps articles unique. Stored products keep their planned quantity and otherwise hold the last row with their article. Added products come from rows and start at the default quantity 0.0 |
| ProductLoader.UpsertAllQuantities | database/load_data.py:116-133 | the upsert never changes a stored product's planned quantity, and gives every new product the column default |
| ProductLoader.ProductBatchIdempotent | database/load_data.py:102-139 | re-running the same sheet gives the same store: no duplicate products |
| ProductLoader.ProductBatchConsistent | database/load_data.py:109-134 | a committed batch keeps the store consistent |
| ProductLoader.ProductRowSkipped | database/load_data.py:110-113 | a row whose type is not found has the same effect as leaving it out |
| ProductLoader.NonNumberAbortsProducts | database/load_data.py:120-139 | a resolvable row whose price does not parse aborts the batch, and the store keeps its old products |
| LinkLoader.LoadLinks | database/load_data.py:142-209 | the store after the loader is the old store with the link table replaced as the batch says, or left alone when a header is not a string. A consistent store stays consistent |
| LinkLoader.KeyIndexHasKey | database/load_data.py:158 | a dict comprehension holds every key it was built from |
| LinkLoader.KeyIndexLastWins | database/load_data.py:158 | a key maps to the value of the last entry with that key |
| LinkLoader.KeyIndexFrom | database/load_data.py:158 | every key in the dictionary comes from an entry, with that entry's value |
| LinkLoader.NormalizedColumnsSettled | database/load_data.py:148 | each normalised header is already trimmed and lower-case, so normalising again changes nothing |
| LinkLoader.MaterialKeysMeaning | database/load_data.py:157-158 | every stored material is found under its normalised name. A key maps to the id of the last material with that key, and only ever to a stored material's id under its own key |
| LinkLoader.ProductKeysMeaning | database/load_data.py:161-162 | the same three facts for the product dictionary |
| LinkLoader.CellMatchesName | database/load_data.py:158-166 | a cell finds a stored name when the two agree after trimming and lower-casing, whatever their case and padding |
| LinkLoader.KeptAppend | database/load_data.py:164 | links are added row after row: two runs of rows add the concatenation of their links |
| LinkLoader.KeptExactly | database/load_data.py:186-194 | a link is stored if and only if some row adds it. When every row adds one, the links are the rows' links in row order, duplicates included |
| LinkLoader.LinkBatchReplaces | database/load_data.py:148-154 | the link load changes only the link table. When the headers are strings its result does not depend on the links stored before; when one is not, the stored links are kept |
| LinkLoader.LinkBatchLinks | database/load_data.py:148-199 | a header that is not a string raises before the delete and changes nothing. Otherwise, when every row reads, a link is stored if and only if a row adds it, in row order; when a row raises, no link is left, since the delete was already committed |
| LinkLoader.LinkReadAdds | database/load_data.py:166-194 | a row adds a link if and only if its trimmed, lower-cased material and product both resolve and its quantity parses. The link carries the two ids and that quantity, with no check on its sign |
| LinkLoader.LinkReadsDrop | database/load_data.py:164 | rows are read one by one, so dropping a row drops only its reading |
| LinkLoader.KeptDrop | database/load_data.py:168-184 | a row that adds nothing can be removed without changing the links |
| LinkLoader.UnknownMaterialSkipped | database/load_data.py:166-170 | a row naming an unknown material is skipped before its product cell is read, whether or not the product column exists, and later rows still count |
| LinkLoader.UnknownProductSkipped | database/load_data.py:166-177 | a row naming an unknown product is skipped whatever its material, and later rows still count |
| LinkLoader.SkippedRowDrops | database/load_data.py:164-194 | a row that reads but adds no link can be removed from the sheet without changing the links |
| LinkLoader.MissingColumnClearsLinks | database/load_data.py:148-166 | a sheet with string headers and rows but no material column raises after the delete, leaving the store with no links |
| LinkLoader.LinkReadResolved | database/load_data.py:186-194 | a link built from dictionaries of stored ids refers to stored rows |
| LinkLoader.MaterialKeysInRange | database/load_data.py:158 | every id in the material dictionary is a stored material's |
| LinkLoader.ProductKeysInRange | database/load_data.py:162 | every id in the product dictionary is a stored product's |
| LinkLoader.LinkBatchConsistent | database/load_data.py:153-199 | the link load keeps the store consistent: every link refers to a stored material and product |
| DataLoad.LoadAllData | database/load_data.py:212-248 | the five loaders run in order (material types, materials, product types, products, links), each only when its file exists. A consistent store stays consistent |
| DataLoad.LoadAllConsistent | database/load_data.py:212-248 | from a consistent store the whole run leaves a consistent store, whichever phases commit, fail or are skipped |
| DataLoad.FirstLoadConsistent | database/load_data.py:214-215 | a first run on a new store leaves a consistent store |
| DataLoad.EarlyPhasesIgnoreLinks | database/load_data.py:223-242 | the first four phases neither read nor change the links |
| DataLoad.LoadAllLinks | database/load_data.py:243-247 | with a link file whose headers are strings, the links stored before the run play no part in its result. Without one, or when a header is not a string, the links are kept |
| Service.MaterialService.GetMaterialById | business/material_service.py:34-42 | a material that is returned is stored and has the id; none is returned only when no stored material has it |
| Service.MaterialService.AddMaterial | business/material_service.py:44-72 | the outcome and the new store are those of the specification of adding. A consistent store stays consistent |
| Service.MaterialService.UpdateMaterial | business/material_service.py:74-103 | the outcome and the new store are those of the specification of updating. A consistent store stays consistent |
| Service.MaterialService.CalculateRequiredQuantity | business/material_service.py:105-129 | the loop's total equals the required quantity of the material in the store, which it does not change |
| Service.MaterialService.CalculateProductQuantity | business/material_service.py:166-189 | −1 for an unknown type id or a per-unit need p1·p2·coefficient ≤ 0. Otherwise the result times that need is 95% of the material, and it is non-negative exactly when the material is |
| Service.AddLinkContributes | business/material_service.py:114-124 | one more link of the material adds its quantity times the product's planned quantity (nothing for a missing product or a null or zero quantity); a link of another material adds nothing. Duplicates count each time |
| Service.NoLinksNoneRequired | business/material_service.py:118-126 | a material with no links needs 0.0 |
| Service.OtherLinksIgnored | business/material_service.py:114-116 | only the material's own links affect its total |
| Service.LinkSumNonNegative | business/material_service.py:118-124 | with no negative link or planned quantities, a sum of contributions is never negative |
| Service.RequiredQuantityNonNegative | business/material_service.py:105-126 | with no negative link or planned quantities, the required quantity is never negative |
| Service.RequiredQuantityExample | business/material_service.py:118-126 | links 2 × product planned at 4 and 3 × product planned at 6, plus a link to a product planned at 0 and another material's link, need 26 |
| Service.ProductQuantityExample | business/material_service.py:166-189 | coefficient 2 with parameters 1, 1 turns 100 units into 47.5; an unknown type or a zero parameter gives −1 |
| Service.SentinelIsAmbiguous | business/material_service.py:176-189 | a negative material quantity can yield exactly −1, the same value as the failure sentinel |
| Service.AddOutcomes | business/material_service.py:49-72 | raises exactly when no type has the name exactly. Gives no result exactly when the type exists and the name is already stored. In both cases nothing is stored |
| Service.AddSaves | business/material_service.py:56-69 | a saved material is appended with the submitted fields, the named type and the next id, and is then found by that id and by its name; nothing else changes |
| Service.AddTwiceStoresOnce | database/models.py:28 | submitting the same new material twice stores it once; the second commit breaks the unique name |
| Service.AddConsistent | business/material_service.py:44-72 | adding keeps the store consistent |
| Service.UpdateOutcomes | business/material_service.py:78-88 | an unknown id gives no result whatever the type. Raising happens exactly when the id is stored and no type has the name. Nothing is stored unless saved |
| Service.UpdateSaves | business/material_service.py:90-100 | a saved update overwrites the seven fields of that material, keeps its id, and reads back by it; every other material and table is unchanged |
| Service.UpdateIdempotent | business/material_service.py:74-103 | saving the same form twice changes nothing the second time |
| Service.UpdateConsistent | business/material_service.py:74-103 | updating keeps the store consistent, unique names included |
| MaterialFilter.ByNameAndTypeMeaning | gui/main_window.py:196-204 | the name and type filters keep exactly the materials matching both |
| MaterialFilter.FilterMaterialsReference | gui/main_window.py:192-218 | a produced list is the input filtered by one reference predicate combining name, type and the active bounds |
| MaterialFilter.FilterMaterialsSubsequence | gui/main_window.py:194-218 | the list keeps the input's order and adds nothing |
| MaterialFilter.FilterMaterialsMembership | gui/main_window.py:197-214 | a material is shown if and only if it is in the input, its lower-cased name contains the trimmed, lower-cased name box (if any), its type name equals the type box (if any), and, when both bounds parse, min ≤ stock ≤ max for each bound set |
| MaterialFilter.UnparsableBoundIgnored | gui/main_window.py:207-216 | a bound box that is not a number switches off both bounds |
| MaterialFilter.EmptyFiltersShowAll | gui/main_window.py:194-218 | with every box empty, every material is shown |
| MaterialFilter.FilterMaterialsFails | gui/main_window.py:211-214 | no list is produced exactly when the bounds parse, one is set, and a material passing name and type has a null stock quantity |

## Left out

- Reading Excel files is not modelled. A sheet is given as headers and rows of
  cells, a blank cell standing for pandas' NaN.
- Progress output is not modelled: the `print` calls and tracebacks.
- The SQLAlchemy session, engine and connection handling (`database/database.py`) is
  not part of this model. A transaction is the loop over a local copy of the table,
  assigned to the store's field at commit.
- Failures of the store itself are not modelled: disk or connection errors and the
  SQLAlchemyError they raise.
- `Text.ParseFloat` reads only decimal text: an optional sign, digits, and an optional
  point with digits. Python's `float` also accepts exponents, `inf`, `nan`,
  underscores and non-ASCII digits; the model refuses them.
- LinkLoader.LinkReadAdds: a blank link quantity is read differently. `float("nan")`
  succeeds in Python, and SQLite binds a NaN as NULL, so the code stores a link whose
  quantity is NULL; the model skips that row. IEEE float behaviour (NaN, rounding,
  overflow) is not modelled: numbers are exact reals.
- `Text.LowerChar` lower-cases ASCII, Latin-1 and the Russian alphabet only. Python's
  `str.lower` covers all of Unicode.
- `Sheets.Get`: with duplicate headers pandas returns a Series, and the model reads
  the first column with that header instead.
- `get_products_for_material` is not modelled: it is a debugging join with printing.
- The rest of the main window is not modelled: the windows, dialogs, table and fonts.
  Only `filter_materials` is. The products window calls the yield computation with
  parameters 1 and 1 (`Service.ProductQuantityExample`).
- `main.py` (the start-up check for the database file) is not part of this model.
- Service.MaterialService.CalculateProductQuantity: its parameters are typed reals. The
  `except Exception: return -1` path for arguments of the wrong type cannot arise in
  the model.
- TypeLoader.ProductTypeBatch: the exception it names can differ from Python's. When
  a readable row lies between the first blank coefficient and the first row that
  cannot be read, Python raises the IntegrityError at that readable row's `merge`,
  while the model names the read error. Otherwise both name the same error. The store
  left behind (nothing of the batch) is the same.
- Service.MaterialService.AddMaterial: a form without one of the seven keys raises
  KeyError in Python; the model's form always has all seven.
- `Link.quantity` is a number in the model. The column is nullable, and the link
  loader stores NULL there for a blank quantity cell (see above); the model has no
  link with a null quantity.
- Service.MaterialService.CalculateRequiredQuantity: a material with a link whose
  quantity is NULL, to a product with a non-zero planned quantity, makes
  `mp.quantity * product.quantity` raise TypeError, which the `except SQLAlchemyError`
  does not catch. The model has no such link, so it always returns a total.
