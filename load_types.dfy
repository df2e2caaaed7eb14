/**
 * The two category loaders: `load_material_types` and `load_product_types`.
 *
 * Each reads a sheet row by row inside one session and commits once at the end. The
 * session `merge`s a new category object that carries no id, which the ORM treats as
 * a plain insert: a category is appended for every row, whatever categories are
 * already stored. Any exception (a missing column, a cell that is not a number, a
 * null coefficient refused when the session flushes) abandons the session, so nothing
 * of the batch is stored.
 */
module TypeLoader {
  import opened Wrappers
  import opened Text
  import opened Models
  import opened Sheets
  import opened Store

  const MaterialTypeColumn := "Тип материала"
  const ProductTypeColumn := "Тип продукции"
  const CoefficientColumn := "Коэффициент типа продукции"

  /** One row of the material-type sheet: the trimmed category name. */
  function MaterialTypeRead(columns: seq<string>, row: seq<Cell>): Result<string, Fault> {
    KeyText(columns, row, MaterialTypeColumn)
  }

  function MaterialTypeReads(sheet: Sheet): (r: seq<Result<string, Fault>>)
    ensures |r| == |sheet.rows|
  {
    seq(|sheet.rows|, i requires 0 <= i < |sheet.rows| => MaterialTypeRead(sheet.columns, sheet.rows[i]))
  }

  /** One category per name, numbered after the `count` categories already stored. */
  function NewMaterialTypes(names: seq<string>, count: nat): (r: seq<MaterialType>)
    ensures |r| == |names|
  {
    if names == [] then []
    else NewMaterialTypes(names[..|names| - 1], count) + [MaterialType(count + |names|, names[|names| - 1])]
  }

  /** The store after `load_material_types` commits, or the exception that stops it. */
  function MaterialTypeBatch(t: Tables, sheet: Sheet): Result<Tables, Fault> {
    var parsed := MaterialTypeReads(sheet);
    if AllRead(parsed) then
      Ok(t.(materialTypes := t.materialTypes + NewMaterialTypes(Values(parsed), |t.materialTypes|)))
    else
      Err(FirstFault(parsed))
  }

  /** A product-type row as the session holds it before the flush: the coefficient may
      still be null here. */
  datatype TypeRow = TypeRow(name: string, coefficient: Option<real>)

  function ProductTypeRead(columns: seq<string>, row: seq<Cell>): Result<TypeRow, Fault> {
    var name :- KeyText(columns, row, ProductTypeColumn);
    var coefficient :- OptionalNumber(columns, row, CoefficientColumn);
    Ok(TypeRow(name, coefficient))
  }

  function ProductTypeReads(sheet: Sheet): (r: seq<Result<TypeRow, Fault>>)
    ensures |r| == |sheet.rows|
  {
    seq(|sheet.rows|, i requires 0 <= i < |sheet.rows| => ProductTypeRead(sheet.columns, sheet.rows[i]))
  }

  /** The NOT NULL constraint on `ProductType.coefficient` holds for every pending row. */
  predicate CoefficientsPresent(rows: seq<TypeRow>) {
    forall i :: 0 <= i < |rows| ==> rows[i].coefficient.Some?
  }

  function NewProductTypes(rows: seq<TypeRow>, count: nat): (r: seq<ProductType>)
    requires CoefficientsPresent(rows)
    ensures |r| == |rows|
  {
    if rows == [] then []
    else
      var last := rows[|rows| - 1];
      NewProductTypes(rows[..|rows| - 1], count) + [ProductType(count + |rows|, last.name, last.coefficient.value)]
  }

  /** The store after `load_product_types` commits, or the exception that stops it: a
      row that cannot be read stops the loop, and a null coefficient fails a flush.
      A row's cells are read before it is merged, and merging flushes the rows pending
      before it. So a null row fails at the merge of the next row if that row reads,
      at its own read error if it does not, or at commit if it is the last row. When
      a readable row lies between the first null coefficient and the first unreadable
      row, this function names the read error where the session names the null one;
      the store that results is the same. */
  function ProductTypeBatch(t: Tables, sheet: Sheet): Result<Tables, Fault> {
    var parsed := ProductTypeReads(sheet);
    if !AllRead(parsed) then
      Err(FirstFault(parsed))
    else if !CoefficientsPresent(Values(parsed)) then
      Err(NullCoefficient)
    else
      Ok(t.(productTypes := t.productTypes + NewProductTypes(Values(parsed), |t.productTypes|)))
  }

  /** The loop of `load_material_types`: the names merged into the session, in row
      order, or the exception of the first row that cannot be read. */
  method ReadMaterialTypes(sheet: Sheet) returns (r: Result<seq<string>, Fault>)
    ensures var parsed := MaterialTypeReads(sheet);
      r == if AllRead(parsed) then Ok(Values(parsed)) else Err(FirstFault(parsed))
  {
    ghost var parsed := MaterialTypeReads(sheet);
    var session: seq<string> := [];
    for i := 0 to |sheet.rows|
      invariant AllRead(parsed[..i])
      invariant session == Values(parsed[..i])
    {
      var name := MaterialTypeRead(sheet.columns, sheet.rows[i]);
      assert name == parsed[i];
      if name.Err? {
        FirstFaultAt(parsed, i);
        return Err(name.error);
      }
      ValuesPrefix(parsed, i);
      session := session + [name.value];
    }
    assert parsed[..|sheet.rows|] == parsed;
    return Ok(session);
  }

  /** The flush at commit: each pending name becomes a new category with the next id. */
  method FlushMaterialTypes(db: Database, session: seq<string>)
    modifies db
    ensures db.Snapshot() == old(db.Snapshot()).(materialTypes := old(db.materialTypes) + NewMaterialTypes(session, |old(db.materialTypes)|))
    ensures old(db.Valid()) ==> db.Valid()
  {
    if db.Valid() {
      MaterialTypesAppendConsistent(db.Snapshot(), session);
    }
    var stored := db.materialTypes;
    var pending := stored;
    for k := 0 to |session|
      invariant pending == stored + NewMaterialTypes(session[..k], |stored|)
    {
      assert session[..k + 1][..k] == session[..k];
      pending := pending + [MaterialType(|pending| + 1, session[k])];
    }
    assert session[..|session|] == session;
    db.materialTypes := pending;
  }

  /** `load_material_types`. */
  method LoadMaterialTypes(db: Database, sheet: Sheet)
    modifies db
    ensures db.Snapshot() == Committed(old(db.Snapshot()), MaterialTypeBatch(old(db.Snapshot()), sheet))
    ensures old(db.Valid()) ==> db.Valid()
  {
    var session := ReadMaterialTypes(sheet);
    if session.Ok? {
      FlushMaterialTypes(db, session.value);
    }
  }

  /** The loop of `load_product_types`: every row read into the session, or the
      exception of the first row that cannot be read. */
  method ReadProductTypes(sheet: Sheet) returns (r: Result<seq<TypeRow>, Fault>)
    ensures var parsed := ProductTypeReads(sheet);
      r == if AllRead(parsed) then Ok(Values(parsed)) else Err(FirstFault(parsed))
  {
    ghost var parsed := ProductTypeReads(sheet);
    var session: seq<TypeRow> := [];
    for i := 0 to |sheet.rows|
      invariant AllRead(parsed[..i])
      invariant session == Values(parsed[..i])
    {
      var row := ProductTypeRead(sheet.columns, sheet.rows[i]);
      assert row == parsed[i];
      if row.Err? {
        FirstFaultAt(parsed, i);
        return Err(row.error);
      }
      ValuesPrefix(parsed, i);
      session := session + [row.value];
    }
    assert parsed[..|sheet.rows|] == parsed;
    return Ok(session);
  }

  /** The flushes of the session: the pending rows are inserted in order, and a null
      coefficient fails the batch, whether it is flushed by a later merge or at commit. */
  method FlushProductTypes(db: Database, session: seq<TypeRow>) returns (ok: bool)
    modifies db
    ensures ok == CoefficientsPresent(session)
    ensures ok ==> db.Snapshot() == old(db.Snapshot()).(productTypes := old(db.productTypes) + NewProductTypes(session, |old(db.productTypes)|))
    ensures !ok ==> db.Snapshot() == old(db.Snapshot())
    ensures old(db.Valid()) ==> db.Valid()
  {
    if db.Valid() && CoefficientsPresent(session) {
      ProductTypesAppendConsistent(db.Snapshot(), session);
    }
    var stored := db.productTypes;
    var pending := stored;
    for k := 0 to |session|
      invariant CoefficientsPresent(session[..k])
      invariant pending == stored + NewProductTypes(session[..k], |stored|)
    {
      if session[k].coefficient.None? {
        return false;
      }
      assert session[..k + 1][..k] == session[..k];
      pending := pending + [ProductType(|pending| + 1, session[k].name, session[k].coefficient.value)];
    }
    assert session[..|session|] == session;
    db.productTypes := pending;
    return true;
  }

  /** `load_product_types`. */
  method LoadProductTypes(db: Database, sheet: Sheet)
    modifies db
    ensures db.Snapshot() == Committed(old(db.Snapshot()), ProductTypeBatch(old(db.Snapshot()), sheet))
    ensures old(db.Valid()) ==> db.Valid()
  {
    var session := ReadProductTypes(sheet);
    if session.Ok? {
      var _ := FlushProductTypes(db, session.value);
    }
  }

  lemma {:induction false} NewMaterialTypesAt(names: seq<string>, count: nat)
    ensures forall i :: 0 <= i < |names| ==>
      NewMaterialTypes(names, count)[i] == MaterialType(count + i + 1, names[i])
  {
    if names != [] {
      NewMaterialTypesAt(names[..|names| - 1], count);
    }
  }

  lemma {:induction false} NewProductTypesAt(rows: seq<TypeRow>, count: nat)
    requires CoefficientsPresent(rows)
    ensures forall i :: 0 <= i < |rows| ==>
      NewProductTypes(rows, count)[i] == ProductType(count + i + 1, rows[i].name, rows[i].coefficient.value)
  {
    if rows != [] {
      assert CoefficientsPresent(rows[..|rows| - 1]);
      NewProductTypesAt(rows[..|rows| - 1], count);
    }
  }

  /** `load_material_types` fails exactly when the sheet has a row but no category
      column; when it commits it appends one category per row, named by the row's
      trimmed cell, numbered in row order, and changes nothing else. */
  lemma MaterialTypeBatchAppends(t: Tables, sheet: Sheet)
    ensures MaterialTypeBatch(t, sheet).Ok? <==> (sheet.rows == [] || MaterialTypeColumn in sheet.columns)
    ensures MaterialTypeBatch(t, sheet).Ok? ==>
      var after := MaterialTypeBatch(t, sheet).value;
      var n := |t.materialTypes|;
      && after == t.(materialTypes := after.materialTypes)
      && |after.materialTypes| == n + |sheet.rows|
      && after.materialTypes[..n] == t.materialTypes
      && forall k :: n <= k < |after.materialTypes| ==>
           after.materialTypes[k]
             == MaterialType(k + 1, Strip(CellText(Get(sheet.columns, sheet.rows[k - n], MaterialTypeColumn).value)))
  {
    var parsed := MaterialTypeReads(sheet);
    if sheet.rows != [] && MaterialTypeColumn !in sheet.columns {
      assert parsed[0].Err?;
    }
    if AllRead(parsed) {
      NewMaterialTypesAt(Values(parsed), |t.materialTypes|);
    }
  }

  /** The loader never looks a category up: loading the same sheet twice stores every
      name twice. */
  lemma MaterialTypeBatchDuplicates(t: Tables, sheet: Sheet)
    requires MaterialTypeBatch(t, sheet).Ok?
    ensures MaterialTypeBatch(MaterialTypeBatch(t, sheet).value, sheet).Ok?
    ensures var twice := MaterialTypeBatch(MaterialTypeBatch(t, sheet).value, sheet).value;
      var n := |t.materialTypes|;
      && |twice.materialTypes| == n + 2 * |sheet.rows|
      && forall k :: n <= k < n + |sheet.rows| ==>
           twice.materialTypes[k + |sheet.rows|].name == twice.materialTypes[k].name
  {
    var once := MaterialTypeBatch(t, sheet).value;
    MaterialTypeBatchAppends(t, sheet);
    MaterialTypeBatchAppends(once, sheet);
    var twice := MaterialTypeBatch(once, sheet).value;
    var n := |t.materialTypes|;
    forall k | n <= k < n + |sheet.rows|
      ensures twice.materialTypes[k + |sheet.rows|].name == twice.materialTypes[k].name
    {
      assert twice.materialTypes[k] == twice.materialTypes[..|once.materialTypes|][k] == once.materialTypes[k];
      assert (k + |sheet.rows|) - |once.materialTypes| == k - n;
    }
  }

  /** Appending numbered categories keeps the store consistent, whatever their names. */
  lemma MaterialTypesAppendConsistent(t: Tables, names: seq<string>)
    requires Consistent(t)
    ensures Consistent(t.(materialTypes := t.materialTypes + NewMaterialTypes(names, |t.materialTypes|)))
  {
    NewMaterialTypesAt(names, |t.materialTypes|);
    var after := t.materialTypes + NewMaterialTypes(names, |t.materialTypes|);
    forall i | 0 <= i < |after|
      ensures after[i].id == i + 1
    {
      if i < |t.materialTypes| {
        assert after[i] == t.materialTypes[i];
      } else {
        assert after[i] == NewMaterialTypes(names, |t.materialTypes|)[i - |t.materialTypes|];
      }
    }
  }

  /** A committed batch of categories keeps the store consistent. */
  lemma MaterialTypeBatchConsistent(t: Tables, sheet: Sheet)
    requires Consistent(t) && MaterialTypeBatch(t, sheet).Ok?
    ensures Consistent(MaterialTypeBatch(t, sheet).value)
  {
    MaterialTypesAppendConsistent(t, Values(MaterialTypeReads(sheet)));
  }

  /** `load_product_types` commits exactly when every row has both columns and a
      coefficient cell that holds a number; it then appends one product type per row,
      with the trimmed name and the comma-tolerant reading of the coefficient. */
  lemma ProductTypeBatchAppends(t: Tables, sheet: Sheet)
    ensures ProductTypeBatch(t, sheet).Ok? <==>
      (sheet.rows == [] ||
        (ProductTypeColumn in sheet.columns && CoefficientColumn in sheet.columns
         && forall i :: 0 <= i < |sheet.rows| ==>
              var c := Get(sheet.columns, sheet.rows[i], CoefficientColumn).value;
              c.Filled? && ParseCommaFloat(c.text).Some?))
    ensures ProductTypeBatch(t, sheet).Ok? ==>
      var after := ProductTypeBatch(t, sheet).value;
      var n := |t.productTypes|;
      && after == t.(productTypes := after.productTypes)
      && |after.productTypes| == n + |sheet.rows|
      && after.productTypes[..n] == t.productTypes
      && forall k :: n <= k < |after.productTypes| ==>
           var c := Get(sheet.columns, sheet.rows[k - n], CoefficientColumn).value;
           && after.productTypes[k].id == k + 1
           && after.productTypes[k].name == Strip(CellText(Get(sheet.columns, sheet.rows[k - n], ProductTypeColumn).value))
           && c.Filled? && ParseCommaFloat(c.text) == Some(after.productTypes[k].coefficient)
  {
    ProductTypeBatchCommits(t, sheet);
    ProductTypeBatchShape(t, sheet);
  }

  /** One product-type row: it reads with a coefficient exactly when both columns exist
      and the coefficient cell holds a number; the name is the trimmed cell and the
      coefficient is what the cell reads as. */
  lemma ProductTypeReadCells(columns: seq<string>, row: seq<Cell>)
    ensures var read := ProductTypeRead(columns, row);
      var c := Get(columns, row, CoefficientColumn);
      (read.Ok? && read.value.coefficient.Some?) <==>
        (ProductTypeColumn in columns && CoefficientColumn in columns
         && c.value.Filled? && ParseCommaFloat(c.value.text).Some?)
    ensures var read := ProductTypeRead(columns, row);
      read.Ok? ==>
        && read.value.name == Strip(CellText(Get(columns, row, ProductTypeColumn).value))
        && ReadsAsNumber(Get(columns, row, CoefficientColumn).value, read.value.coefficient)
  {
  }

  lemma ProductTypeBatchCommits(t: Tables, sheet: Sheet)
    ensures ProductTypeBatch(t, sheet).Ok? <==>
      (sheet.rows == [] ||
        (ProductTypeColumn in sheet.columns && CoefficientColumn in sheet.columns
         && forall i :: 0 <= i < |sheet.rows| ==>
              var c := Get(sheet.columns, sheet.rows[i], CoefficientColumn).value;
              c.Filled? && ParseCommaFloat(c.text).Some?))
  {
    var parsed := ProductTypeReads(sheet);
    forall i | 0 <= i < |sheet.rows|
      ensures parsed[i] == ProductTypeRead(sheet.columns, sheet.rows[i])
    {
    }
    if ProductTypeBatch(t, sheet).Ok? && sheet.rows != [] {
      var rows := Values(parsed);
      forall i | 0 <= i < |sheet.rows|
        ensures var c := Get(sheet.columns, sheet.rows[i], CoefficientColumn).value;
          c.Filled? && ParseCommaFloat(c.text).Some?
      {
        assert rows[i].coefficient.Some?;
        ProductTypeReadCells(sheet.columns, sheet.rows[i]);
      }
      ProductTypeReadCells(sheet.columns, sheet.rows[0]);
    }
    if sheet.rows != [] && ProductTypeColumn in sheet.columns && CoefficientColumn in sheet.columns
      && (forall i :: 0 <= i < |sheet.rows| ==>
            var c := Get(sheet.columns, sheet.rows[i], CoefficientColumn).value;
            c.Filled? && ParseCommaFloat(c.text).Some?)
    {
      forall i | 0 <= i < |sheet.rows|
        ensures parsed[i].Ok? && parsed[i].value.coefficient.Some?
      {
        ProductTypeReadCells(sheet.columns, sheet.rows[i]);
      }
      assert AllRead(parsed);
      assert CoefficientsPresent(Values(parsed));
    }
  }

  lemma ProductTypeBatchShape(t: Tables, sheet: Sheet)
    ensures ProductTypeBatch(t, sheet).Ok? ==>
      var after := ProductTypeBatch(t, sheet).value;
      var n := |t.productTypes|;
      && after == t.(productTypes := after.productTypes)
      && |after.productTypes| == n + |sheet.rows|
      && after.productTypes[..n] == t.productTypes
      && forall k :: n <= k < |after.productTypes| ==>
           var c := Get(sheet.columns, sheet.rows[k - n], CoefficientColumn).value;
           && after.productTypes[k].id == k + 1
           && after.productTypes[k].name == Strip(CellText(Get(sheet.columns, sheet.rows[k - n], ProductTypeColumn).value))
           && c.Filled? && ParseCommaFloat(c.text) == Some(after.productTypes[k].coefficient)
  {
    var parsed := ProductTypeReads(sheet);
    if ProductTypeBatch(t, sheet).Ok? {
      var rows := Values(parsed);
      var n := |t.productTypes|;
      NewProductTypesAt(rows, n);
      forall i | 0 <= i < |sheet.rows|
        ensures var c := Get(sheet.columns, sheet.rows[i], CoefficientColumn).value;
          && rows[i].name == Strip(CellText(Get(sheet.columns, sheet.rows[i], ProductTypeColumn).value))
          && c.Filled? && ParseCommaFloat(c.text) == rows[i].coefficient
      {
        assert parsed[i] == ProductTypeRead(sheet.columns, sheet.rows[i]);
        ProductTypeReadCells(sheet.columns, sheet.rows[i]);
      }
    }
  }

  /** A blank coefficient is never stored as a null or a zero coefficient: the flush
      that meets it fails and the whole batch is rolled back. */
  lemma BlankCoefficientAbortsBatch(t: Tables, sheet: Sheet, i: nat)
    requires i < |sheet.rows| && Get(sheet.columns, sheet.rows[i], CoefficientColumn) == Ok(Blank)
    ensures ProductTypeBatch(t, sheet).Err?
    ensures Committed(t, ProductTypeBatch(t, sheet)) == t
  {
    ProductTypeBatchAppends(t, sheet);
  }

  /** Appending numbered product types, none with a null coefficient, keeps the store
      consistent. */
  lemma ProductTypesAppendConsistent(t: Tables, rows: seq<TypeRow>)
    requires Consistent(t) && CoefficientsPresent(rows)
    ensures Consistent(t.(productTypes := t.productTypes + NewProductTypes(rows, |t.productTypes|)))
  {
    NewProductTypesAt(rows, |t.productTypes|);
    var after := t.productTypes + NewProductTypes(rows, |t.productTypes|);
    forall i | 0 <= i < |after|
      ensures after[i].id == i + 1
    {
      if i < |t.productTypes| {
        assert after[i] == t.productTypes[i];
      } else {
        assert after[i] == NewProductTypes(rows, |t.productTypes|)[i - |t.productTypes|];
      }
    }
  }

  /** A committed batch of product types keeps the store consistent. */
  lemma ProductTypeBatchConsistent(t: Tables, sheet: Sheet)
    requires Consistent(t) && ProductTypeBatch(t, sheet).Ok?
    ensures Consistent(ProductTypeBatch(t, sheet).value)
  {
    ProductTypeBatchAppends(t, sheet);
    ProductTypesAppendConsistent(t, Values(ProductTypeReads(sheet)));
  }
}
