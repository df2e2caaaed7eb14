/**
 * `load_products`: an upsert of products keyed by their trimmed article.
 *
 * Each row names its product type by trimmed name; a row whose type is not stored is
 * skipped. Otherwise the product with the row's trimmed article is looked up in the
 * session, which already holds the rows added earlier in the same batch: when found,
 * its name, type and minimum partner price are overwritten in place and its planned
 * quantity is kept; when not, a new product is added with the column default for the
 * quantity. One commit at the end; any exception rolls the batch back.
 */
module ProductLoader {
  import opened Wrappers
  import opened Text
  import opened Models
  import opened Sheets
  import opened Store

  const TypeColumn := "Тип продукции"
  const ArticleColumn := "Артикул"
  const NameColumn := "Наименование продукции"
  const PriceColumn := "Минимальная стоимость для партнера"

  /** What one row says about a product, its type already resolved to an id. */
  datatype ProductRecord = ProductRecord(
    article: string,
    name: string,
    typeId: nat,
    minPartnerPrice: Option<real>)

  /** One row: `Ok(None)` when its type is not stored (the row is skipped before any
      other cell is read), the record it describes otherwise, or the exception. */
  function ProductRead(types: seq<ProductType>, columns: seq<string>, row: seq<Cell>): Result<Option<ProductRecord>, Fault> {
    var typeName :- KeyText(columns, row, TypeColumn);
    match ProductTypeNamed(types, typeName)
    case None => Ok(None)
    case Some(k) =>
      var article :- KeyText(columns, row, ArticleColumn);
      var name :- KeyText(columns, row, NameColumn);
      var price :- OptionalNumber(columns, row, PriceColumn);
      Ok(Some(ProductRecord(article, name, types[k].id, price)))
  }

  function ProductReads(types: seq<ProductType>, sheet: Sheet): (r: seq<Result<Option<ProductRecord>, Fault>>)
    ensures |r| == |sheet.rows|
  {
    seq(|sheet.rows|, i requires 0 <= i < |sheet.rows| => ProductRead(types, sheet.columns, sheet.rows[i]))
  }

  /** The update branch: name, type and minimum partner price overwritten; id, article
      and planned quantity kept. */
  function Refresh(p: Product, r: ProductRecord): Product {
    p.(name := r.name, typeId := r.typeId, minPartnerPrice := r.minPartnerPrice)
  }

  /** The insert branch: a new product with the id the store assigns next and the
      column default for its planned quantity. */
  function Inserted(id: nat, r: ProductRecord): Product {
    Product(id, r.typeId, r.name, r.article, r.minPartnerPrice, DefaultProductQuantity)
  }

  /** The effect of one row on the session's products. */
  function Upserted(ps: seq<Product>, row: Option<ProductRecord>): seq<Product> {
    match row
    case None => ps
    case Some(r) =>
      match ProductWithArticle(ps, r.article)
      case Some(k) => ps[k := Refresh(ps[k], r)]
      case None => ps + [Inserted(|ps| + 1, r)]
  }

  /** The effect of the rows, in order. */
  function UpsertAll(ps: seq<Product>, rows: seq<Option<ProductRecord>>): seq<Product> {
    if rows == [] then ps else Upserted(UpsertAll(ps, rows[..|rows| - 1]), rows[|rows| - 1])
  }

  /** The store after `load_products` commits, or the exception that stops it. */
  function ProductBatch(t: Tables, sheet: Sheet): Result<Tables, Fault> {
    var parsed := ProductReads(t.productTypes, sheet);
    if AllRead(parsed) then
      Ok(t.(products := UpsertAll(t.products, Values(parsed))))
    else
      Err(FirstFault(parsed))
  }

  /** `load_products`. */
  method LoadProducts(db: Database, sheet: Sheet)
    modifies db
    ensures db.Snapshot() == Committed(old(db.Snapshot()), ProductBatch(old(db.Snapshot()), sheet))
    ensures old(db.Valid()) ==> db.Valid()
  {
    if db.Valid() && ProductBatch(db.Snapshot(), sheet).Ok? {
      ProductBatchConsistent(db.Snapshot(), sheet);
    }
    var types := db.productTypes;
    var stored := db.products;
    ghost var parsed := ProductReads(types, sheet);
    var pending := stored;
    for i := 0 to |sheet.rows|
      invariant unchanged(db)
      invariant AllRead(parsed[..i])
      invariant pending == UpsertAll(stored, Values(parsed[..i]))
    {
      var row := ProductRead(types, sheet.columns, sheet.rows[i]);
      assert row == parsed[i];
      if row.Err? {
        FirstFaultAt(parsed, i);
        assert ProductBatch(old(db.Snapshot()), sheet).Err?;
        return;
      }
      ValuesPrefix(parsed, i);
      assert Values(parsed[..i + 1])[..i] == Values(parsed[..i]);
      ghost var before := pending;
      if row.value.Some? {
        var r := row.value.value;
        var found := ProductWithArticle(pending, r.article);
        if found.Some? {
          pending := pending[found.value := Refresh(pending[found.value], r)];
        } else {
          pending := pending + [Inserted(|pending| + 1, r)];
        }
      }
      assert pending == Upserted(before, row.value);
    }
    assert parsed[..|sheet.rows|] == parsed;
    db.products := pending;
  }

  /** The last row of the batch that articles a product, if any. */
  function LastFor(rows: seq<Option<ProductRecord>>, article: string): (r: Option<ProductRecord>)
    ensures r.Some? ==> r.value.article == article
  {
    if rows == [] then None
    else if rows[|rows| - 1].Some? && rows[|rows| - 1].value.article == article then rows[|rows| - 1]
    else LastFor(rows[..|rows| - 1], article)
  }

  /** A product as the last row naming it leaves it. */
  function RefreshedBy(p: Product, last: Option<ProductRecord>): Product {
    if last.None? then p else Refresh(p, last.value)
  }

  /** Every row that gets past the type check names a stored product by article. */
  predicate Covered(ps: seq<Product>, rows: seq<Option<ProductRecord>>) {
    forall j :: 0 <= j < |rows| && rows[j].Some? ==> ProductWithArticle(ps, rows[j].value.article).Some?
  }

  /** Every product already carries what the last row naming it says. */
  predicate Settled(ps: seq<Product>, rows: seq<Option<ProductRecord>>) {
    forall k :: 0 <= k < |ps| ==> RefreshedBy(ps[k], LastFor(rows, ps[k].article)) == ps[k]
  }

  /** In a table with unique articles, the lookup by article finds the one product with it. */
  lemma ArticleIsUnique(ps: seq<Product>, k: nat)
    requires UniqueArticles(ps) && k < |ps|
    ensures ProductWithArticle(ps, ps[k].article) == Some(k)
  {
  }

  /** One row: exactly one product carries the row's article afterwards, holding the
      row's name, type and price; it is the product that had that article, with its
      id and planned quantity kept, or a new one appended with the next id and the
      default quantity; every other product is unchanged. */
  lemma UpsertedMeaning(ps: seq<Product>, r: ProductRecord)
    requires UniqueArticles(ps)
    ensures var after := Upserted(ps, Some(r));
      && UniqueArticles(after)
      && ProductWithArticle(after, r.article).Some?
      && Refresh(after[ProductWithArticle(after, r.article).value], r) == after[ProductWithArticle(after, r.article).value]
      && (forall k :: 0 <= k < |ps| && ps[k].article != r.article ==> after[k] == ps[k])
      && (forall k :: 0 <= k < |ps| ==> after[k].id == ps[k].id && after[k].article == ps[k].article)
      && (ProductWithArticle(ps, r.article).Some? ==>
            var k := ProductWithArticle(ps, r.article).value;
            |after| == |ps| && after[k] == Refresh(ps[k], r) && after[k].quantity == ps[k].quantity)
      && (ProductWithArticle(ps, r.article).None? ==> after == ps + [Inserted(|ps| + 1, r)])
  {
    var after := Upserted(ps, Some(r));
    match ProductWithArticle(ps, r.article)
    case Some(p) =>
      assert after[p].article == r.article;
      ArticleIsUnique(after, p);
    case None =>
      ArticleIsUnique(after, |ps|);
  }

  /** Any row keeps the articles and ids of the products already there, keeps articles
      unique, and leaves its own article present. */
  lemma UpsertedKeeps(ps: seq<Product>, row: Option<ProductRecord>)
    ensures var after := Upserted(ps, row);
      && |after| >= |ps|
      && (forall k :: 0 <= k < |ps| ==> after[k].id == ps[k].id && after[k].article == ps[k].article)
      && (row.Some? ==> ProductWithArticle(after, row.value.article).Some?)
      && (UniqueArticles(ps) ==> UniqueArticles(after))
  {
    var after := Upserted(ps, row);
    if row.Some? {
      match ProductWithArticle(ps, row.value.article)
      case Some(p) =>
        assert after[p].article == row.value.article;
      case None =>
        assert after[|ps|].article == row.value.article;
    }
  }

  lemma {:induction false} UpsertAllKeeps(ps: seq<Product>, rows: seq<Option<ProductRecord>>)
    ensures var after := UpsertAll(ps, rows);
      && |after| >= |ps|
      && (forall k :: 0 <= k < |ps| ==> after[k].id == ps[k].id && after[k].article == ps[k].article)
      && (UniqueArticles(ps) ==> UniqueArticles(after))
  {
    if rows != [] {
      UpsertAllKeeps(ps, rows[..|rows| - 1]);
      UpsertedKeeps(UpsertAll(ps, rows[..|rows| - 1]), rows[|rows| - 1]);
    }
  }

  /** After a run, every row that got past the type check has its product. */
  lemma {:induction false} UpsertAllCovers(ps: seq<Product>, rows: seq<Option<ProductRecord>>)
    ensures Covered(UpsertAll(ps, rows), rows)
  {
    if rows != [] {
      var init := rows[..|rows| - 1];
      var before := UpsertAll(ps, init);
      var after := UpsertAll(ps, rows);
      UpsertAllCovers(ps, init);
      UpsertedKeeps(before, rows[|rows| - 1]);
      forall j | 0 <= j < |rows| && rows[j].Some?
        ensures ProductWithArticle(after, rows[j].value.article).Some?
      {
        if j < |rows| - 1 {
          assert rows[j] == init[j];
          var p := ProductWithArticle(before, rows[j].value.article).value;
          assert after[p].article == rows[j].value.article;
        }
      }
    }
  }

  /** After a run, every product carries what the last row naming it says. */
  lemma {:induction false} UpsertAllSettles(ps: seq<Product>, rows: seq<Option<ProductRecord>>)
    requires UniqueArticles(ps)
    ensures Settled(UpsertAll(ps, rows), rows)
  {
    if rows != [] {
      var init := rows[..|rows| - 1];
      var last := rows[|rows| - 1];
      var before := UpsertAll(ps, init);
      var after := UpsertAll(ps, rows);
      UpsertAllSettles(ps, init);
      UpsertAllKeeps(ps, init);
      UpsertedKeeps(before, last);
      forall k | 0 <= k < |after|
        ensures RefreshedBy(after[k], LastFor(rows, after[k].article)) == after[k]
      {
        if last.Some? && after[k].article == last.value.article {
          UpsertedMeaning(before, last.value);
        } else {
          UpsertedMeaningOther(before, last, k);
        }
      }
    }
  }

  /** A product not named by the row is left as it was. */
  lemma UpsertedMeaningOther(ps: seq<Product>, row: Option<ProductRecord>, k: nat)
    requires UniqueArticles(ps)
    requires k < |Upserted(ps, row)|
    requires row.None? || Upserted(ps, row)[k].article != row.value.article
    ensures k < |ps| && Upserted(ps, row)[k] == ps[k]
  {
  }

  /** Over a table with unique articles, a run overwrites each product the rows name with
      the last of those rows and leaves the others alone; when every row articles a stored
      product, nothing is added. */
  lemma {:induction false} UpsertAllOverwrites(ps: seq<Product>, rows: seq<Option<ProductRecord>>)
    requires UniqueArticles(ps)
    ensures var after := UpsertAll(ps, rows);
      && |after| >= |ps|
      && (forall k :: 0 <= k < |ps| ==> after[k] == RefreshedBy(ps[k], LastFor(rows, ps[k].article)))
      && (Covered(ps, rows) ==> |after| == |ps|)
  {
    if rows != [] {
      var init := rows[..|rows| - 1];
      var last := rows[|rows| - 1];
      var before := UpsertAll(ps, init);
      var after := UpsertAll(ps, rows);
      UpsertAllOverwrites(ps, init);
      UpsertAllKeeps(ps, init);
      forall k | 0 <= k < |ps|
        ensures after[k] == RefreshedBy(ps[k], LastFor(rows, ps[k].article))
      {
        if last.Some? && ps[k].article == last.value.article {
          ArticleIsUnique(before, k);
        } else {
          UpsertedMeaningOther(before, last, k);
        }
      }
      if Covered(ps, rows) {
        assert Covered(ps, init) by {
          forall j | 0 <= j < |init| && init[j].Some?
            ensures ProductWithArticle(ps, init[j].value.article).Some?
          {
            assert init[j] == rows[j];
          }
        }
        if last.Some? {
          var p := ProductWithArticle(ps, last.value.article).value;
          assert before[p].article == last.value.article;
        }
      }
    }
  }

  /** Running the same rows again changes nothing: no duplicates, no other values. */
  lemma UpsertAllIdempotent(ps: seq<Product>, rows: seq<Option<ProductRecord>>)
    requires UniqueArticles(ps)
    ensures UpsertAll(UpsertAll(ps, rows), rows) == UpsertAll(ps, rows)
  {
    var once := UpsertAll(ps, rows);
    UpsertAllKeeps(ps, rows);
    UpsertAllCovers(ps, rows);
    UpsertAllSettles(ps, rows);
    UpsertAllOverwrites(once, rows);
  }

  /** Products that were not there before are the ones the rows name. */
  lemma {:induction false} UpsertAllAdds(ps: seq<Product>, rows: seq<Option<ProductRecord>>)
    ensures var after := UpsertAll(ps, rows);
      forall k :: |ps| <= k < |after| ==> LastFor(rows, after[k].article).Some?
  {
    if rows != [] {
      var init := rows[..|rows| - 1];
      var last := rows[|rows| - 1];
      var before := UpsertAll(ps, init);
      var after := UpsertAll(ps, rows);
      UpsertAllAdds(ps, init);
      UpsertAllKeeps(ps, init);
      UpsertedKeeps(before, last);
      forall k | |ps| <= k < |after|
        ensures LastFor(rows, after[k].article).Some?
      {
        if !(last.Some? && after[k].article == last.value.article) {
          assert after[k] == before[k];
        }
      }
    }
  }

  /** Rows are applied one after the other. */
  lemma {:induction false} UpsertAllAppend(ps: seq<Product>, a: seq<Option<ProductRecord>>, b: seq<Option<ProductRecord>>)
    ensures UpsertAll(ps, a + b) == UpsertAll(UpsertAll(ps, a), b)
  {
    if b == [] {
      assert a + b == a;
    } else {
      assert (a + b)[..|a + b| - 1] == a + b[..|b| - 1];
      assert (a + b)[|a + b| - 1] == b[|b| - 1];
      UpsertAllAppend(ps, a, b[..|b| - 1]);
    }
  }

  /** Ids stay positional and type references stay in range when every row refers
      to one of the `typeCount` product types. */
  lemma {:induction false} UpsertAllConsistent(ps: seq<Product>, rows: seq<Option<ProductRecord>>, typeCount: nat)
    requires ProductsConsistent(ps, typeCount)
    requires forall j :: 0 <= j < |rows| && rows[j].Some? ==> 1 <= rows[j].value.typeId <= typeCount
    ensures ProductsConsistent(UpsertAll(ps, rows), typeCount)
  {
    if rows != [] {
      var init := rows[..|rows| - 1];
      assert forall j :: 0 <= j < |init| ==> init[j] == rows[j];
      UpsertAllConsistent(ps, init, typeCount);
      UpsertedKeeps(UpsertAll(ps, init), rows[|rows| - 1]);
    }
  }

  /** A row whose type is stored reads its cells as the source does: the trimmed
      article and name, the type's id, and a blank price as null, any other price
      through the comma-tolerant number reading. A row whose type is not stored reads
      as nothing at all, whatever its other cells hold. */
  lemma ProductReadCells(types: seq<ProductType>, columns: seq<string>, row: seq<Cell>)
    ensures ProductRead(types, columns, row) == Ok(None) <==>
      (TypeColumn in columns
       && ProductTypeNamed(types, Strip(CellText(Get(columns, row, TypeColumn).value))).None?)
    ensures ProductRead(types, columns, row).Ok? && ProductRead(types, columns, row).value.Some? ==>
      var r := ProductRead(types, columns, row).value.value;
      var k := ProductTypeNamed(types, Strip(CellText(Get(columns, row, TypeColumn).value)));
      && k.Some? && r.typeId == types[k.value].id
      && r.article == Strip(CellText(Get(columns, row, ArticleColumn).value))
      && r.name == Strip(CellText(Get(columns, row, NameColumn).value))
      && ReadsAsNumber(Get(columns, row, PriceColumn).value, r.minPartnerPrice)
  {
  }

  /** Every record the rows produce refers to a stored product type. */
  lemma ProductReadsTyped(t: Tables, sheet: Sheet)
    requires ProductTypesNumbered(t.productTypes) && AllRead(ProductReads(t.productTypes, sheet))
    ensures var rows := Values(ProductReads(t.productTypes, sheet));
      forall j :: 0 <= j < |rows| && rows[j].Some? ==> 1 <= rows[j].value.typeId <= |t.productTypes|
  {
    var parsed := ProductReads(t.productTypes, sheet);
    var rows := Values(parsed);
    forall j | 0 <= j < |rows| && rows[j].Some?
      ensures 1 <= rows[j].value.typeId <= |t.productTypes|
    {
      assert parsed[j] == ProductRead(t.productTypes, sheet.columns, sheet.rows[j]);
    }
  }

  /** `load_products` as an upsert: only the products table changes; articles stay
      unique; each stored product is overwritten by the last row naming its article,
      or left alone if no row does, and keeps its planned quantity either way; every
      product a row names ends up with that last row's name, type and price; every
      row that got past the type check has its product; and the products added are
      ones the rows name, each with the default planned quantity. */
  lemma ProductBatchUpserts(t: Tables, sheet: Sheet)
    requires UniqueArticles(t.products) && ProductBatch(t, sheet).Ok?
    ensures var after := ProductBatch(t, sheet).value;
      var rows := Values(ProductReads(t.productTypes, sheet));
      && after == t.(products := after.products)
      && UniqueArticles(after.products)
      && |after.products| >= |t.products|
      && (forall k :: 0 <= k < |t.products| ==>
            && after.products[k] == RefreshedBy(t.products[k], LastFor(rows, t.products[k].article))
            && after.products[k].quantity == t.products[k].quantity)
      && (forall k :: 0 <= k < |after.products| && LastFor(rows, after.products[k].article).Some? ==>
            var r := LastFor(rows, after.products[k].article).value;
            after.products[k].name == r.name && after.products[k].typeId == r.typeId
            && after.products[k].minPartnerPrice == r.minPartnerPrice)
      && (forall j :: 0 <= j < |rows| && rows[j].Some? ==> ProductWithArticle(after.products, rows[j].value.article).Some?)
      && (forall k :: |t.products| <= k < |after.products| ==>
            LastFor(rows, after.products[k].article).Some? && after.products[k].quantity == DefaultProductQuantity)
  {
    var rows := Values(ProductReads(t.productTypes, sheet));
    var after := UpsertAll(t.products, rows);
    UpsertAllKeeps(t.products, rows);
    UpsertAllOverwrites(t.products, rows);
    UpsertAllSettles(t.products, rows);
    UpsertAllCovers(t.products, rows);
    UpsertAllAdds(t.products, rows);
    UpsertAllQuantities(t.products, rows);
    forall k | 0 <= k < |after| && LastFor(rows, after[k].article).Some?
      ensures after[k] == Refresh(after[k], LastFor(rows, after[k].article).value)
    {
      assert RefreshedBy(after[k], LastFor(rows, after[k].article)) == after[k];
    }
  }

  /** The loader never writes a planned quantity: stored products keep theirs and new
      ones get the column default. */
  lemma {:induction false} UpsertAllQuantities(ps: seq<Product>, rows: seq<Option<ProductRecord>>)
    ensures var after := UpsertAll(ps, rows);
      && |after| >= |ps|
      && (forall k :: 0 <= k < |ps| ==> after[k].quantity == ps[k].quantity)
      && (forall k :: |ps| <= k < |after| ==> after[k].quantity == DefaultProductQuantity)
  {
    if rows != [] {
      UpsertAllQuantities(ps, rows[..|rows| - 1]);
    }
  }

  /** Re-running `load_products` on the same sheet leaves the store as the first run
      left it. */
  lemma ProductBatchIdempotent(t: Tables, sheet: Sheet)
    requires UniqueArticles(t.products) && ProductBatch(t, sheet).Ok?
    ensures ProductBatch(ProductBatch(t, sheet).value, sheet) == ProductBatch(t, sheet)
  {
    var rows := Values(ProductReads(t.productTypes, sheet));
    UpsertAllIdempotent(t.products, rows);
  }

  /** `load_products` keeps the store consistent. */
  lemma ProductBatchConsistent(t: Tables, sheet: Sheet)
    requires Consistent(t) && ProductBatch(t, sheet).Ok?
    ensures Consistent(ProductBatch(t, sheet).value)
  {
    ProductReadsTyped(t, sheet);
    UpsertAllKeeps(t.products, Values(ProductReads(t.productTypes, sheet)));
    UpsertAllConsistent(t.products, Values(ProductReads(t.productTypes, sheet)), |t.productTypes|);
  }

  /** A row whose type is not stored is skipped: the batch ends exactly as it would
      without that row, so the rows after it are still applied. */
  lemma ProductRowSkipped(t: Tables, sheet: Sheet, i: nat)
    requires i < |sheet.rows| && TypeColumn in sheet.columns
    requires ProductTypeNamed(t.productTypes, Strip(CellText(Get(sheet.columns, sheet.rows[i], TypeColumn).value))).None?
    ensures ProductBatch(t, sheet) == ProductBatch(t, sheet.(rows := sheet.rows[..i] + sheet.rows[i + 1..]))
  {
    var parsed := ProductReads(t.productTypes, sheet);
    ProductReadCells(t.productTypes, sheet.columns, sheet.rows[i]);
    assert parsed[i] == Ok(None);
    ProductReadsDrop(t.productTypes, sheet, i);
    DropRead(parsed, i);
    if AllRead(parsed) {
      UpsertAllSkip(t.products, Values(parsed[..i]), Values(parsed[i + 1..]));
    }
  }

  /** Rows are read one by one, so dropping a row drops only its reading. */
  lemma ProductReadsDrop(types: seq<ProductType>, sheet: Sheet, i: nat)
    requires i < |sheet.rows|
    ensures var parsed := ProductReads(types, sheet);
      ProductReads(types, sheet.(rows := sheet.rows[..i] + sheet.rows[i + 1..])) == parsed[..i] + parsed[i + 1..]
  {
    var parsed := ProductReads(types, sheet);
    var shorter := sheet.(rows := sheet.rows[..i] + sheet.rows[i + 1..]);
    var rest := parsed[..i] + parsed[i + 1..];
    forall k | 0 <= k < |rest|
      ensures ProductReads(types, shorter)[k] == rest[k]
    {
      if k < i {
        assert shorter.rows[k] == sheet.rows[k];
      } else {
        assert shorter.rows[k] == sheet.rows[k + 1];
      }
    }
  }

  /** A skipped row between two runs of rows changes nothing. */
  lemma UpsertAllSkip(ms: seq<Product>, a: seq<Option<ProductRecord>>, b: seq<Option<ProductRecord>>)
    ensures UpsertAll(ms, a + [None] + b) == UpsertAll(ms, a + b)
  {
    UpsertAllAppend(ms, a + [None], b);
    UpsertAllAppend(ms, a, [None]);
    UpsertAllAppend(ms, a, b);
    var skipped: seq<Option<ProductRecord>> := [None];
    assert skipped[..0] == [];
  }

  /** A row whose category resolves and whose price cell holds text that is not a
      number raises, and the whole batch is dropped: the store keeps every product it
      had before, rows read earlier included. */
  lemma NonNumberAbortsProducts(t: Tables, sheet: Sheet, i: nat)
    requires i < |sheet.rows|
    requires TypeColumn in sheet.columns && ArticleColumn in sheet.columns && NameColumn in sheet.columns
      && PriceColumn in sheet.columns
    requires ProductTypeNamed(t.productTypes, Strip(CellText(Get(sheet.columns, sheet.rows[i], TypeColumn).value))).Some?
    requires var c := Get(sheet.columns, sheet.rows[i], PriceColumn).value;
      c.Filled? && ParseCommaFloat(c.text).None?
    ensures ProductBatch(t, sheet).Err?
    ensures Committed(t, ProductBatch(t, sheet)) == t
  {
    var parsed := ProductReads(t.productTypes, sheet);
    assert parsed[i].Err?;
  }
}
