/**
 * `load_materials`: an upsert of materials keyed by their trimmed name.
 *
 * Each row names its category by trimmed name; a row whose category is not stored is
 * skipped. Otherwise the material with the row's trimmed name is looked up in the
 * session, which already holds the rows added earlier in the same batch: when found,
 * its category and its five scalar fields are overwritten in place; when not, a new
 * material is added. One commit at the end; any exception rolls the batch back.
 */
module MaterialLoader {
  import opened Wrappers
  import opened Text
  import opened Models
  import opened Sheets
  import opened Store

  const TypeColumn := "Тип материала"
  const NameColumn := "Наименование материала"
  const PriceColumn := "Цена единицы материала"
  const UnitColumn := "Единица измерения"
  const PackageColumn := "Количество в упаковке"
  const StockColumn := "Количество на складе"
  const MinColumn := "Минимальное количество"

  /** What one row says about a material, its category already resolved to an id. */
  datatype MaterialRecord = MaterialRecord(
    name: string,
    typeId: nat,
    price: Option<real>,
    unit: Option<string>,
    packageQuantity: Option<real>,
    stockQuantity: Option<real>,
    minQuantity: Option<real>)

  /** One row: `Ok(None)` when its category is not stored (the row is skipped before any
      other cell is read), the record it describes otherwise, or the exception. */
  function MaterialRead(types: seq<MaterialType>, columns: seq<string>, row: seq<Cell>): Result<Option<MaterialRecord>, Fault> {
    var typeName :- KeyText(columns, row, TypeColumn);
    match MaterialTypeNamed(types, typeName)
    case None => Ok(None)
    case Some(k) =>
      var record :- RecordRead(types[k].id, columns, row);
      Ok(Some(record))
  }

  /** The cells of a row whose category was found, read in the order the code reads
      them. */
  function RecordRead(typeId: nat, columns: seq<string>, row: seq<Cell>): Result<MaterialRecord, Fault> {
    var name :- KeyText(columns, row, NameColumn);
    var price :- OptionalNumber(columns, row, PriceColumn);
    var unit :- OptionalText(columns, row, UnitColumn);
    var packageQuantity :- OptionalNumber(columns, row, PackageColumn);
    var stockQuantity :- OptionalNumber(columns, row, StockColumn);
    var minQuantity :- OptionalNumber(columns, row, MinColumn);
    Ok(MaterialRecord(name, typeId, price, unit, packageQuantity, stockQuantity, minQuantity))
  }

  function MaterialReads(types: seq<MaterialType>, sheet: Sheet): (r: seq<Result<Option<MaterialRecord>, Fault>>)
    ensures |r| == |sheet.rows|
  {
    seq(|sheet.rows|, i requires 0 <= i < |sheet.rows| => MaterialRead(types, sheet.columns, sheet.rows[i]))
  }

  /** The update branch: category and scalar fields overwritten, id and name kept. */
  function Refresh(m: Material, r: MaterialRecord): Material {
    m.(typeId := r.typeId, price := r.price, unit := r.unit, packageQuantity := r.packageQuantity,
       stockQuantity := r.stockQuantity, minQuantity := r.minQuantity)
  }

  /** The insert branch: a new material with the id the store assigns next. */
  function Inserted(id: nat, r: MaterialRecord): Material {
    Material(id, r.typeId, r.name, r.price, r.unit, r.packageQuantity, r.stockQuantity, r.minQuantity)
  }

  /** The effect of one row on the session's materials. */
  function Upserted(ms: seq<Material>, row: Option<MaterialRecord>): seq<Material> {
    match row
    case None => ms
    case Some(r) =>
      match MaterialNamed(ms, r.name)
      case Some(k) => ms[k := Refresh(ms[k], r)]
      case None => ms + [Inserted(|ms| + 1, r)]
  }

  /** The effect of the rows, in order. */
  function UpsertAll(ms: seq<Material>, rows: seq<Option<MaterialRecord>>): seq<Material> {
    if rows == [] then ms else Upserted(UpsertAll(ms, rows[..|rows| - 1]), rows[|rows| - 1])
  }

  /** The store after `load_materials` commits, or the exception that stops it. */
  function MaterialBatch(t: Tables, sheet: Sheet): Result<Tables, Fault> {
    var parsed := MaterialReads(t.materialTypes, sheet);
    if AllRead(parsed) then
      Ok(t.(materials := UpsertAll(t.materials, Values(parsed))))
    else
      Err(FirstFault(parsed))
  }

  /** `load_materials`. */
  method LoadMaterials(db: Database, sheet: Sheet)
    modifies db
    ensures db.Snapshot() == Committed(old(db.Snapshot()), MaterialBatch(old(db.Snapshot()), sheet))
    ensures old(db.Valid()) ==> db.Valid()
  {
    if db.Valid() && MaterialBatch(db.Snapshot(), sheet).Ok? {
      MaterialBatchConsistent(db.Snapshot(), sheet);
    }
    var types := db.materialTypes;
    var stored := db.materials;
    ghost var parsed := MaterialReads(types, sheet);
    var pending := stored;
    for i := 0 to |sheet.rows|
      invariant unchanged(db)
      invariant AllRead(parsed[..i])
      invariant pending == UpsertAll(stored, Values(parsed[..i]))
    {
      var row := MaterialRead(types, sheet.columns, sheet.rows[i]);
      assert row == parsed[i];
      if row.Err? {
        FirstFaultAt(parsed, i);
        assert MaterialBatch(old(db.Snapshot()), sheet).Err?;
        return;
      }
      ValuesPrefix(parsed, i);
      assert Values(parsed[..i + 1])[..i] == Values(parsed[..i]);
      ghost var before := pending;
      if row.value.Some? {
        var r := row.value.value;
        var found := MaterialNamed(pending, r.name);
        if found.Some? {
          pending := pending[found.value := Refresh(pending[found.value], r)];
        } else {
          pending := pending + [Inserted(|pending| + 1, r)];
        }
      }
      assert pending == Upserted(before, row.value);
    }
    assert parsed[..|sheet.rows|] == parsed;
    db.materials := pending;
  }

  /** The last row of the batch that names a material, if any. */
  function LastFor(rows: seq<Option<MaterialRecord>>, name: string): (r: Option<MaterialRecord>)
    ensures r.Some? ==> r.value.name == name
  {
    if rows == [] then None
    else if rows[|rows| - 1].Some? && rows[|rows| - 1].value.name == name then rows[|rows| - 1]
    else LastFor(rows[..|rows| - 1], name)
  }

  /** A material as the last row naming it leaves it. */
  function RefreshedBy(m: Material, last: Option<MaterialRecord>): Material {
    if last.None? then m else Refresh(m, last.value)
  }

  /** Every row that gets past the category check names a stored material. */
  predicate Covered(ms: seq<Material>, rows: seq<Option<MaterialRecord>>) {
    forall j :: 0 <= j < |rows| && rows[j].Some? ==> MaterialNamed(ms, rows[j].value.name).Some?
  }

  /** Every material already carries what the last row naming it says. */
  predicate Settled(ms: seq<Material>, rows: seq<Option<MaterialRecord>>) {
    forall k :: 0 <= k < |ms| ==> RefreshedBy(ms[k], LastFor(rows, ms[k].name)) == ms[k]
  }

  /** In a table with unique names, the lookup by name finds the one material with it. */
  lemma NamedIsUnique(ms: seq<Material>, k: nat)
    requires UniqueMaterialNames(ms) && k < |ms|
    ensures MaterialNamed(ms, ms[k].name) == Some(k)
  {
  }

  /** One row: exactly one material carries the row's name afterwards, holding the
      row's values under its own id; it is the material that had that name, or a new
      one appended with the next id; every other material is unchanged. */
  lemma UpsertedMeaning(ms: seq<Material>, r: MaterialRecord)
    requires UniqueMaterialNames(ms)
    ensures var after := Upserted(ms, Some(r));
      && UniqueMaterialNames(after)
      && MaterialNamed(after, r.name).Some?
      && after[MaterialNamed(after, r.name).value] == Inserted(after[MaterialNamed(after, r.name).value].id, r)
      && (forall k :: 0 <= k < |ms| && ms[k].name != r.name ==> after[k] == ms[k])
      && (forall k :: 0 <= k < |ms| ==> after[k].id == ms[k].id && after[k].name == ms[k].name)
      && (MaterialNamed(ms, r.name).Some? ==> |after| == |ms|)
      && (MaterialNamed(ms, r.name).None? ==> after == ms + [Inserted(|ms| + 1, r)])
  {
    var after := Upserted(ms, Some(r));
    match MaterialNamed(ms, r.name)
    case Some(p) =>
      assert after[p].name == r.name;
      NamedIsUnique(after, p);
    case None =>
      NamedIsUnique(after, |ms|);
  }

  /** Any row keeps the names and ids of the materials already there, keeps names
      unique, and leaves its own name present. */
  lemma UpsertedKeeps(ms: seq<Material>, row: Option<MaterialRecord>)
    ensures var after := Upserted(ms, row);
      && |after| >= |ms|
      && (forall k :: 0 <= k < |ms| ==> after[k].id == ms[k].id && after[k].name == ms[k].name)
      && (row.Some? ==> MaterialNamed(after, row.value.name).Some?)
      && (UniqueMaterialNames(ms) ==> UniqueMaterialNames(after))
  {
    var after := Upserted(ms, row);
    if row.Some? {
      match MaterialNamed(ms, row.value.name)
      case Some(p) =>
        assert after[p].name == row.value.name;
      case None =>
        assert after[|ms|].name == row.value.name;
    }
  }

  lemma {:induction false} UpsertAllKeeps(ms: seq<Material>, rows: seq<Option<MaterialRecord>>)
    ensures var after := UpsertAll(ms, rows);
      && |after| >= |ms|
      && (forall k :: 0 <= k < |ms| ==> after[k].id == ms[k].id && after[k].name == ms[k].name)
      && (UniqueMaterialNames(ms) ==> UniqueMaterialNames(after))
  {
    if rows != [] {
      UpsertAllKeeps(ms, rows[..|rows| - 1]);
      UpsertedKeeps(UpsertAll(ms, rows[..|rows| - 1]), rows[|rows| - 1]);
    }
  }

  /** After a run, every row that got past the category check has its material. */
  lemma {:induction false} UpsertAllCovers(ms: seq<Material>, rows: seq<Option<MaterialRecord>>)
    ensures Covered(UpsertAll(ms, rows), rows)
  {
    if rows != [] {
      var init := rows[..|rows| - 1];
      var before := UpsertAll(ms, init);
      var after := UpsertAll(ms, rows);
      UpsertAllCovers(ms, init);
      UpsertedKeeps(before, rows[|rows| - 1]);
      forall j | 0 <= j < |rows| && rows[j].Some?
        ensures MaterialNamed(after, rows[j].value.name).Some?
      {
        if j < |rows| - 1 {
          assert rows[j] == init[j];
          var p := MaterialNamed(before, rows[j].value.name).value;
          assert after[p].name == rows[j].value.name;
        }
      }
    }
  }

  /** After a run, every material carries what the last row naming it says. */
  lemma {:induction false} UpsertAllSettles(ms: seq<Material>, rows: seq<Option<MaterialRecord>>)
    requires UniqueMaterialNames(ms)
    ensures Settled(UpsertAll(ms, rows), rows)
  {
    if rows != [] {
      var init := rows[..|rows| - 1];
      var last := rows[|rows| - 1];
      var before := UpsertAll(ms, init);
      var after := UpsertAll(ms, rows);
      UpsertAllSettles(ms, init);
      UpsertAllKeeps(ms, init);
      UpsertedKeeps(before, last);
      forall k | 0 <= k < |after|
        ensures RefreshedBy(after[k], LastFor(rows, after[k].name)) == after[k]
      {
        if last.Some? && after[k].name == last.value.name {
          UpsertedMeaning(before, last.value);
        } else {
          UpsertedMeaningOther(before, last, k);
        }
      }
    }
  }

  /** A material not named by the row is left as it was. */
  lemma UpsertedMeaningOther(ms: seq<Material>, row: Option<MaterialRecord>, k: nat)
    requires UniqueMaterialNames(ms)
    requires k < |Upserted(ms, row)|
    requires row.None? || Upserted(ms, row)[k].name != row.value.name
    ensures k < |ms| && Upserted(ms, row)[k] == ms[k]
  {
  }

  /** Over a table with unique names, a run overwrites each material the rows name with
      the last of those rows and leaves the others alone; when every row names a stored
      material, nothing is added. */
  lemma {:induction false} UpsertAllOverwrites(ms: seq<Material>, rows: seq<Option<MaterialRecord>>)
    requires UniqueMaterialNames(ms)
    ensures var after := UpsertAll(ms, rows);
      && |after| >= |ms|
      && (forall k :: 0 <= k < |ms| ==> after[k] == RefreshedBy(ms[k], LastFor(rows, ms[k].name)))
      && (Covered(ms, rows) ==> |after| == |ms|)
  {
    if rows != [] {
      var init := rows[..|rows| - 1];
      var last := rows[|rows| - 1];
      var before := UpsertAll(ms, init);
      var after := UpsertAll(ms, rows);
      UpsertAllOverwrites(ms, init);
      UpsertAllKeeps(ms, init);
      forall k | 0 <= k < |ms|
        ensures after[k] == RefreshedBy(ms[k], LastFor(rows, ms[k].name))
      {
        if last.Some? && ms[k].name == last.value.name {
          NamedIsUnique(before, k);
        } else {
          UpsertedMeaningOther(before, last, k);
        }
      }
      if Covered(ms, rows) {
        assert Covered(ms, init) by {
          forall j | 0 <= j < |init| && init[j].Some?
            ensures MaterialNamed(ms, init[j].value.name).Some?
          {
            assert init[j] == rows[j];
          }
        }
        if last.Some? {
          var p := MaterialNamed(ms, last.value.name).value;
          assert before[p].name == last.value.name;
        }
      }
    }
  }

  /** Running the same rows again changes nothing: no duplicates, no other values. */
  lemma UpsertAllIdempotent(ms: seq<Material>, rows: seq<Option<MaterialRecord>>)
    requires UniqueMaterialNames(ms)
    ensures UpsertAll(UpsertAll(ms, rows), rows) == UpsertAll(ms, rows)
  {
    var once := UpsertAll(ms, rows);
    UpsertAllKeeps(ms, rows);
    UpsertAllCovers(ms, rows);
    UpsertAllSettles(ms, rows);
    UpsertAllOverwrites(once, rows);
  }

  /** Materials that were not there before are the ones the rows name. */
  lemma {:induction false} UpsertAllAdds(ms: seq<Material>, rows: seq<Option<MaterialRecord>>)
    ensures var after := UpsertAll(ms, rows);
      forall k :: |ms| <= k < |after| ==> LastFor(rows, after[k].name).Some?
  {
    if rows != [] {
      var init := rows[..|rows| - 1];
      var last := rows[|rows| - 1];
      var before := UpsertAll(ms, init);
      var after := UpsertAll(ms, rows);
      UpsertAllAdds(ms, init);
      UpsertAllKeeps(ms, init);
      UpsertedKeeps(before, last);
      forall k | |ms| <= k < |after|
        ensures LastFor(rows, after[k].name).Some?
      {
        if !(last.Some? && after[k].name == last.value.name) {
          assert after[k] == before[k];
        }
      }
    }
  }

  /** Rows are applied one after the other. */
  lemma {:induction false} UpsertAllAppend(ms: seq<Material>, a: seq<Option<MaterialRecord>>, b: seq<Option<MaterialRecord>>)
    ensures UpsertAll(ms, a + b) == UpsertAll(UpsertAll(ms, a), b)
  {
    if b == [] {
      assert a + b == a;
    } else {
      assert (a + b)[..|a + b| - 1] == a + b[..|b| - 1];
      assert (a + b)[|a + b| - 1] == b[|b| - 1];
      UpsertAllAppend(ms, a, b[..|b| - 1]);
    }
  }

  /** Ids stay positional and category references stay in range when every row refers
      to one of the `typeCount` categories. */
  lemma {:induction false} UpsertAllConsistent(ms: seq<Material>, rows: seq<Option<MaterialRecord>>, typeCount: nat)
    requires MaterialsConsistent(ms, typeCount)
    requires forall j :: 0 <= j < |rows| && rows[j].Some? ==> 1 <= rows[j].value.typeId <= typeCount
    ensures MaterialsConsistent(UpsertAll(ms, rows), typeCount)
  {
    if rows != [] {
      var init := rows[..|rows| - 1];
      assert forall j :: 0 <= j < |init| ==> init[j] == rows[j];
      UpsertAllConsistent(ms, init, typeCount);
      UpsertedKeeps(UpsertAll(ms, init), rows[|rows| - 1]);
    }
  }

  /** A row whose category is stored reads its cells as the source does: the trimmed
      name, the category's id, blank numeric cells as null and the others through the
      comma-tolerant number reading, the unit trimmed or null. A row whose category is
      not stored reads as nothing at all, whatever its other cells hold. */
  lemma MaterialReadCells(types: seq<MaterialType>, columns: seq<string>, row: seq<Cell>)
    ensures MaterialRead(types, columns, row) == Ok(None) <==>
      (TypeColumn in columns
       && MaterialTypeNamed(types, Strip(CellText(Get(columns, row, TypeColumn).value))).None?)
    ensures MaterialRead(types, columns, row).Ok? && MaterialRead(types, columns, row).value.Some? ==>
      var r := MaterialRead(types, columns, row).value.value;
      var k := MaterialTypeNamed(types, Strip(CellText(Get(columns, row, TypeColumn).value)));
      var unit := Get(columns, row, UnitColumn).value;
      && k.Some? && r.typeId == types[k.value].id
      && r.name == Strip(CellText(Get(columns, row, NameColumn).value))
      && ReadsAsNumber(Get(columns, row, PriceColumn).value, r.price)
      && r.unit == (if unit.Blank? then None else Some(Strip(unit.text)))
      && ReadsAsNumber(Get(columns, row, PackageColumn).value, r.packageQuantity)
      && ReadsAsNumber(Get(columns, row, StockColumn).value, r.stockQuantity)
      && ReadsAsNumber(Get(columns, row, MinColumn).value, r.minQuantity)
  {
    MaterialReadSkips(types, columns, row);
    MaterialReadFields(types, columns, row);
  }

  lemma MaterialReadSkips(types: seq<MaterialType>, columns: seq<string>, row: seq<Cell>)
    ensures MaterialRead(types, columns, row) == Ok(None) <==>
      (TypeColumn in columns
       && MaterialTypeNamed(types, Strip(CellText(Get(columns, row, TypeColumn).value))).None?)
  {
  }

  lemma MaterialReadFields(types: seq<MaterialType>, columns: seq<string>, row: seq<Cell>)
    ensures MaterialRead(types, columns, row).Ok? && MaterialRead(types, columns, row).value.Some? ==>
      var r := MaterialRead(types, columns, row).value.value;
      var k := MaterialTypeNamed(types, Strip(CellText(Get(columns, row, TypeColumn).value)));
      var unit := Get(columns, row, UnitColumn).value;
      && k.Some? && r.typeId == types[k.value].id
      && r.name == Strip(CellText(Get(columns, row, NameColumn).value))
      && ReadsAsNumber(Get(columns, row, PriceColumn).value, r.price)
      && r.unit == (if unit.Blank? then None else Some(Strip(unit.text)))
      && ReadsAsNumber(Get(columns, row, PackageColumn).value, r.packageQuantity)
      && ReadsAsNumber(Get(columns, row, StockColumn).value, r.stockQuantity)
      && ReadsAsNumber(Get(columns, row, MinColumn).value, r.minQuantity)
  {
    var read := MaterialRead(types, columns, row);
    if read.Ok? && read.value.Some? {
      var k := MaterialTypeNamed(types, Strip(CellText(Get(columns, row, TypeColumn).value)));
      assert k.Some? && read == Ok(Some(RecordRead(types[k.value].id, columns, row).value));
      RecordReadFields(types[k.value].id, columns, row);
    }
  }

  /** What each cell of a row contributes to the record it produces. */
  lemma RecordReadFields(typeId: nat, columns: seq<string>, row: seq<Cell>)
    ensures RecordRead(typeId, columns, row).Ok? ==>
      var r := RecordRead(typeId, columns, row).value;
      var unit := Get(columns, row, UnitColumn).value;
      && r.typeId == typeId
      && r.name == Strip(CellText(Get(columns, row, NameColumn).value))
      && ReadsAsNumber(Get(columns, row, PriceColumn).value, r.price)
      && r.unit == (if unit.Blank? then None else Some(Strip(unit.text)))
      && ReadsAsNumber(Get(columns, row, PackageColumn).value, r.packageQuantity)
      && ReadsAsNumber(Get(columns, row, StockColumn).value, r.stockQuantity)
      && ReadsAsNumber(Get(columns, row, MinColumn).value, r.minQuantity)
  {
    var read := RecordRead(typeId, columns, row);
    if read.Ok? {
      var r := read.value;
      var price, package := OptionalNumber(columns, row, PriceColumn), OptionalNumber(columns, row, PackageColumn);
      var stock, least := OptionalNumber(columns, row, StockColumn), OptionalNumber(columns, row, MinColumn);
      assert price.Ok? && package.Ok? && stock.Ok? && least.Ok?;
      assert r.price == price.value && r.packageQuantity == package.value;
      assert r.stockQuantity == stock.value && r.minQuantity == least.value;
    }
  }

  /** A record a row produces refers to the category it names. */
  lemma MaterialReadTyped(types: seq<MaterialType>, columns: seq<string>, row: seq<Cell>)
    requires MaterialTypesNumbered(types)
    ensures var read := MaterialRead(types, columns, row);
      read.Ok? && read.value.Some? ==> 1 <= read.value.value.typeId <= |types|
  {
    var read := MaterialRead(types, columns, row);
    if read.Ok? && read.value.Some? {
      var typeName := KeyText(columns, row, TypeColumn);
      assert typeName.Ok?;
      var k := MaterialTypeNamed(types, typeName.value);
      assert k.Some? && read.value.value == RecordRead(types[k.value].id, columns, row).value;
      RecordReadFields(types[k.value].id, columns, row);
    }
  }

  /** Every record the rows produce refers to a stored category. */
  lemma MaterialReadsTyped(t: Tables, sheet: Sheet)
    requires MaterialTypesNumbered(t.materialTypes) && AllRead(MaterialReads(t.materialTypes, sheet))
    ensures var rows := Values(MaterialReads(t.materialTypes, sheet));
      forall j :: 0 <= j < |rows| && rows[j].Some? ==> 1 <= rows[j].value.typeId <= |t.materialTypes|
  {
    var parsed := MaterialReads(t.materialTypes, sheet);
    var rows := Values(parsed);
    forall j | 0 <= j < |rows| && rows[j].Some?
      ensures 1 <= rows[j].value.typeId <= |t.materialTypes|
    {
      assert parsed[j] == MaterialRead(t.materialTypes, sheet.columns, sheet.rows[j]);
      MaterialReadTyped(t.materialTypes, sheet.columns, sheet.rows[j]);
    }
  }

  /** `load_materials` as an upsert: only the materials table changes; names stay
      unique; each stored material is overwritten by the last row naming it, or left
      alone if no row names it; every material a row names ends up holding exactly
      that last row's values under its own id; every row that got past the category
      check has its material; and nothing is added that no row names. */
  lemma MaterialBatchUpserts(t: Tables, sheet: Sheet)
    requires UniqueMaterialNames(t.materials) && MaterialBatch(t, sheet).Ok?
    ensures var after := MaterialBatch(t, sheet).value;
      var rows := Values(MaterialReads(t.materialTypes, sheet));
      && after == t.(materials := after.materials)
      && UniqueMaterialNames(after.materials)
      && |after.materials| >= |t.materials|
      && (forall k :: 0 <= k < |t.materials| ==>
            after.materials[k] == RefreshedBy(t.materials[k], LastFor(rows, t.materials[k].name)))
      && (forall k :: 0 <= k < |after.materials| && LastFor(rows, after.materials[k].name).Some? ==>
            after.materials[k] == Inserted(after.materials[k].id, LastFor(rows, after.materials[k].name).value))
      && (forall j :: 0 <= j < |rows| && rows[j].Some? ==> MaterialNamed(after.materials, rows[j].value.name).Some?)
      && (forall k :: |t.materials| <= k < |after.materials| ==> LastFor(rows, after.materials[k].name).Some?)
  {
    var rows := Values(MaterialReads(t.materialTypes, sheet));
    var after := UpsertAll(t.materials, rows);
    UpsertAllKeeps(t.materials, rows);
    UpsertAllOverwrites(t.materials, rows);
    UpsertAllSettles(t.materials, rows);
    UpsertAllCovers(t.materials, rows);
    UpsertAllAdds(t.materials, rows);
    forall k | 0 <= k < |after| && LastFor(rows, after[k].name).Some?
      ensures after[k] == Inserted(after[k].id, LastFor(rows, after[k].name).value)
    {
      assert RefreshedBy(after[k], LastFor(rows, after[k].name)) == after[k];
    }
  }

  /** Re-running `load_materials` on the same sheet leaves the store as the first run
      left it. */
  lemma MaterialBatchIdempotent(t: Tables, sheet: Sheet)
    requires UniqueMaterialNames(t.materials) && MaterialBatch(t, sheet).Ok?
    ensures MaterialBatch(MaterialBatch(t, sheet).value, sheet) == MaterialBatch(t, sheet)
  {
    var rows := Values(MaterialReads(t.materialTypes, sheet));
    UpsertAllIdempotent(t.materials, rows);
  }

  /** `load_materials` keeps the store consistent. */
  lemma MaterialBatchConsistent(t: Tables, sheet: Sheet)
    requires Consistent(t) && MaterialBatch(t, sheet).Ok?
    ensures Consistent(MaterialBatch(t, sheet).value)
  {
    MaterialReadsTyped(t, sheet);
    UpsertAllKeeps(t.materials, Values(MaterialReads(t.materialTypes, sheet)));
    UpsertAllConsistent(t.materials, Values(MaterialReads(t.materialTypes, sheet)), |t.materialTypes|);
  }

  /** A row whose category is not stored is skipped: the batch ends exactly as it would
      without that row, so the rows after it are still applied. */
  lemma MaterialRowSkipped(t: Tables, sheet: Sheet, i: nat)
    requires i < |sheet.rows| && TypeColumn in sheet.columns
    requires MaterialTypeNamed(t.materialTypes, Strip(CellText(Get(sheet.columns, sheet.rows[i], TypeColumn).value))).None?
    ensures MaterialBatch(t, sheet) == MaterialBatch(t, sheet.(rows := sheet.rows[..i] + sheet.rows[i + 1..]))
  {
    var parsed := MaterialReads(t.materialTypes, sheet);
    MaterialReadSkips(t.materialTypes, sheet.columns, sheet.rows[i]);
    assert parsed[i] == Ok(None);
    MaterialReadsDrop(t.materialTypes, sheet, i);
    DropRead(parsed, i);
    if AllRead(parsed) {
      UpsertAllSkip(t.materials, Values(parsed[..i]), Values(parsed[i + 1..]));
    }
  }

  /** Rows are read one by one, so dropping a row drops only its reading. */
  lemma MaterialReadsDrop(types: seq<MaterialType>, sheet: Sheet, i: nat)
    requires i < |sheet.rows|
    ensures var parsed := MaterialReads(types, sheet);
      MaterialReads(types, sheet.(rows := sheet.rows[..i] + sheet.rows[i + 1..])) == parsed[..i] + parsed[i + 1..]
  {
    var parsed := MaterialReads(types, sheet);
    var shorter := sheet.(rows := sheet.rows[..i] + sheet.rows[i + 1..]);
    var rest := parsed[..i] + parsed[i + 1..];
    forall k | 0 <= k < |rest|
      ensures MaterialReads(types, shorter)[k] == rest[k]
    {
      if k < i {
        assert shorter.rows[k] == sheet.rows[k];
      } else {
        assert shorter.rows[k] == sheet.rows[k + 1];
      }
    }
  }

  /** A skipped row between two runs of rows changes nothing. */
  lemma UpsertAllSkip(ms: seq<Material>, a: seq<Option<MaterialRecord>>, b: seq<Option<MaterialRecord>>)
    ensures UpsertAll(ms, a + [None] + b) == UpsertAll(ms, a + b)
  {
    UpsertAllAppend(ms, a + [None], b);
    UpsertAllAppend(ms, a, [None]);
    UpsertAllAppend(ms, a, b);
    var skipped: seq<Option<MaterialRecord>> := [None];
    assert skipped[..0] == [];
  }

  /** A row whose category resolves and one of whose number cells holds text that is
      not a number raises, and the whole batch is dropped: the store keeps every
      material it had before, rows read earlier included. */
  lemma NonNumberAbortsMaterials(t: Tables, sheet: Sheet, i: nat, column: string)
    requires i < |sheet.rows|
    requires column == PriceColumn || column == PackageColumn || column == StockColumn || column == MinColumn
    requires TypeColumn in sheet.columns && NameColumn in sheet.columns && UnitColumn in sheet.columns
      && PriceColumn in sheet.columns && PackageColumn in sheet.columns && StockColumn in sheet.columns
      && MinColumn in sheet.columns
    requires MaterialTypeNamed(t.materialTypes, Strip(CellText(Get(sheet.columns, sheet.rows[i], TypeColumn).value))).Some?
    requires var c := Get(sheet.columns, sheet.rows[i], column).value;
      c.Filled? && ParseCommaFloat(c.text).None?
    ensures MaterialBatch(t, sheet).Err?
    ensures Committed(t, MaterialBatch(t, sheet)) == t
  {
    var parsed := MaterialReads(t.materialTypes, sheet);
    assert parsed[i].Err?;
  }
}
