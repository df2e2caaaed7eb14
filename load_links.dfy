/**
 * `load_material_product_relations`: the full replace of the link table.
 *
 * The headers are trimmed and lower-cased; a header that is not a string makes that
 * step raise before the session is opened, and the store is left as it was. Otherwise
 * every stored link is deleted and that delete is committed before any row is read.
 * Two dictionaries are then built once,
 * from the lower-cased, trimmed names of the stored materials and of the stored
 * products to their ids; when two names give the same key, the later row of the
 * table wins. Each row's material and product cells, trimmed and lower-cased, are
 * looked up there; a row whose material or product is not found, or whose quantity
 * is not a number, is skipped. Every other row adds one link, with no check for a
 * duplicate pair or a non-positive quantity. One commit at the end; an exception
 * (a missing column) rolls back the new links but not the delete.
 */
module LinkLoader {
  import opened Wrappers
  import opened Text
  import opened Models
  import opened Sheets
  import opened Store

  const MaterialColumn := "наименование материала"
  const ProductColumn := "продукция"
  const QuantityColumn := "необходимое количество материала"

  /** `[col.strip().lower() for col in df.columns]`. */
  function NormalizedColumns(columns: seq<string>): seq<string> {
    seq(|columns|, i requires 0 <= i < |columns| => Lower(Strip(columns[i])))
  }

  /** A normalised header is trimmed and lower-case already, so normalising the headers
      a second time changes nothing. */
  lemma NormalizedColumnsSettled(columns: seq<string>)
    ensures NormalizedColumns(NormalizedColumns(columns)) == NormalizedColumns(columns)
  {
    forall i | 0 <= i < |columns|
      ensures Lower(Strip(Lower(Strip(columns[i])))) == Lower(Strip(columns[i]))
    {
      var c := Strip(columns[i]);
      StripLowerCommute(c);
      StripIdempotent(columns[i]);
      LowerIdempotent(c);
    }
  }

  /** `name.lower().strip()`: a stored name as a dictionary key. */
  function NameKey(name: string): string {
    Strip(Lower(name))
  }

  /** `str(cell).strip().lower()`: a cell as a lookup key. */
  function CellKey(c: Cell): string {
    Lower(Strip(CellText(c)))
  }

  /** A dictionary built from `(key, id)` pairs in order, as a dict comprehension
      builds it: a later pair overwrites an earlier one with the same key. */
  function KeyIndex(entries: seq<(string, nat)>): map<string, nat> {
    if entries == [] then map[]
    else KeyIndex(entries[..|entries| - 1])[entries[|entries| - 1].0 := entries[|entries| - 1].1]
  }

  /** `{m.name.lower().strip(): m for m in materials}`, each material kept as its id. */
  function MaterialKeys(ms: seq<Material>): (r: map<string, nat>)
  {
    KeyIndex(seq(|ms|, i requires 0 <= i < |ms| => (NameKey(ms[i].name), ms[i].id)))
  }

  /** `{p.name.lower().strip(): p for p in products}`, each product kept as its id. */
  function ProductKeys(ps: seq<Product>): (r: map<string, nat>)
  {
    KeyIndex(seq(|ps|, i requires 0 <= i < |ps| => (NameKey(ps[i].name), ps[i].id)))
  }

  /** One row: the link it adds, `Ok(None)` when it is skipped, or the exception. The
      product cell is read only once the material is found, and the quantity cell only
      once the product is found. */
  function LinkRead(columns: seq<string>, materialKeys: map<string, nat>, productKeys: map<string, nat>,
                    row: seq<Cell>): Result<Option<Link>, Fault> {
    var materialCell :- Get(columns, row, MaterialColumn);
    var materialName := CellKey(materialCell);
    if materialName !in materialKeys then Ok(None)
    else
      var productCell :- Get(columns, row, ProductColumn);
      var productName := CellKey(productCell);
      if productName !in productKeys then Ok(None)
      else
        var quantityCell :- Get(columns, row, QuantityColumn);
        match ParseCommaFloat(CellText(quantityCell))
        case None => Ok(None)
        case Some(q) => Ok(Some(Link(materialKeys[materialName], productKeys[productName], q)))
  }

  function LinkReads(t: Tables, sheet: Sheet): (r: seq<Result<Option<Link>, Fault>>)
    ensures |r| == |sheet.rows|
  {
    var columns := NormalizedColumns(sheet.columns);
    var materialKeys := MaterialKeys(t.materials);
    var productKeys := ProductKeys(t.products);
    seq(|sheet.rows|, i requires 0 <= i < |sheet.rows| => LinkRead(columns, materialKeys, productKeys, sheet.rows[i]))
  }

  /** The links the rows add, in row order. */
  function Kept(rows: seq<Option<Link>>): seq<Link> {
    if rows == [] then []
    else Kept(rows[..|rows| - 1]) + (if rows[|rows| - 1].Some? then [rows[|rows| - 1].value] else [])
  }

  /** The store after `load_material_product_relations`: nothing changes when a header
      cannot be normalised; otherwise the delete is always committed, and the new links
      only when no row raised. */
  function LinkBatch(t: Tables, sheet: Sheet): Tables {
    if !sheet.headersAreText then t
    else
      var parsed := LinkReads(t, sheet);
      t.(links := if AllRead(parsed) then Kept(Values(parsed)) else [])
  }

  /** `load_material_product_relations`. */
  method LoadLinks(db: Database, sheet: Sheet)
    modifies db
    ensures db.Snapshot() == LinkBatch(old(db.Snapshot()), sheet)
    ensures old(db.Valid()) ==> db.Valid()
  {
    if db.Valid() {
      LinkBatchConsistent(db.Snapshot(), sheet);
    }
    if !sheet.headersAreText {
      return;
    }
    var columns := NormalizedColumns(sheet.columns);
    db.links := [];
    var materialKeys := MaterialKeys(db.materials);
    var productKeys := ProductKeys(db.products);
    ghost var parsed := LinkReads(old(db.Snapshot()), sheet);
    var pending: seq<Link> := [];
    for i := 0 to |sheet.rows|
      invariant db.Snapshot() == old(db.Snapshot()).(links := [])
      invariant AllRead(parsed[..i])
      invariant pending == Kept(Values(parsed[..i]))
    {
      var row := LinkRead(columns, materialKeys, productKeys, sheet.rows[i]);
      assert row == parsed[i];
      if row.Err? {
        FirstFaultAt(parsed, i);
        return;
      }
      ValuesPrefix(parsed, i);
      assert Values(parsed[..i + 1])[..i] == Values(parsed[..i]);
      if row.value.Some? {
        pending := pending + [row.value.value];
      }
    }
    assert parsed[..|sheet.rows|] == parsed;
    db.links := pending;
  }

  /** Every pair's key is in the dictionary. */
  lemma {:induction false} KeyIndexHasKey(entries: seq<(string, nat)>, i: nat)
    requires i < |entries|
    ensures entries[i].0 in KeyIndex(entries)
  {
    var init := entries[..|entries| - 1];
    if i < |init| {
      KeyIndexHasKey(init, i);
      assert init[i] == entries[i];
    }
  }

  /** A key maps to the id of the last pair with that key. */
  lemma {:induction false} KeyIndexLastWins(entries: seq<(string, nat)>, i: nat)
    requires i < |entries|
    requires forall j :: i < j < |entries| ==> entries[j].0 != entries[i].0
    ensures entries[i].0 in KeyIndex(entries) && KeyIndex(entries)[entries[i].0] == entries[i].1
  {
    var init := entries[..|entries| - 1];
    if i < |init| {
      assert init[i] == entries[i];
      KeyIndexLastWins(init, i);
    }
  }

  /** Every key in the dictionary comes from some pair, and maps to that pair's id. */
  lemma {:induction false} KeyIndexFrom(entries: seq<(string, nat)>, key: string)
    requires key in KeyIndex(entries)
    ensures exists i :: 0 <= i < |entries| && entries[i] == (key, KeyIndex(entries)[key])
  {
    var init := entries[..|entries| - 1];
    if key != entries[|entries| - 1].0 {
      KeyIndexFrom(init, key);
      var i :| 0 <= i < |init| && init[i] == (key, KeyIndex(init)[key]);
      assert entries[i] == init[i];
    }
  }

  /** Every stored material is in the dictionary under its key; a key maps to the id
      of the last material with that key; every id in the dictionary is a stored
      material's id under its own key. */
  lemma MaterialKeysMeaning(ms: seq<Material>)
    ensures forall i :: 0 <= i < |ms| ==> NameKey(ms[i].name) in MaterialKeys(ms)
    ensures forall i :: 0 <= i < |ms| && (forall j :: i < j < |ms| ==> NameKey(ms[j].name) != NameKey(ms[i].name))
              ==> MaterialKeys(ms)[NameKey(ms[i].name)] == ms[i].id
    ensures forall key :: key in MaterialKeys(ms) ==>
      exists i :: 0 <= i < |ms| && NameKey(ms[i].name) == key && MaterialKeys(ms)[key] == ms[i].id
  {
    var entries := seq(|ms|, i requires 0 <= i < |ms| => (NameKey(ms[i].name), ms[i].id));
    forall i | 0 <= i < |ms|
      ensures NameKey(ms[i].name) in MaterialKeys(ms)
    {
      KeyIndexHasKey(entries, i);
    }
    forall i | 0 <= i < |ms| && (forall j :: i < j < |ms| ==> NameKey(ms[j].name) != NameKey(ms[i].name))
      ensures MaterialKeys(ms)[NameKey(ms[i].name)] == ms[i].id
    {
      KeyIndexLastWins(entries, i);
    }
    forall key | key in MaterialKeys(ms)
      ensures exists i :: 0 <= i < |ms| && NameKey(ms[i].name) == key && MaterialKeys(ms)[key] == ms[i].id
    {
      KeyIndexFrom(entries, key);
    }
  }

  /** The same three facts for the product dictionary. */
  lemma ProductKeysMeaning(ps: seq<Product>)
    ensures forall i :: 0 <= i < |ps| ==> NameKey(ps[i].name) in ProductKeys(ps)
    ensures forall i :: 0 <= i < |ps| && (forall j :: i < j < |ps| ==> NameKey(ps[j].name) != NameKey(ps[i].name))
              ==> ProductKeys(ps)[NameKey(ps[i].name)] == ps[i].id
    ensures forall key :: key in ProductKeys(ps) ==>
      exists i :: 0 <= i < |ps| && NameKey(ps[i].name) == key && ProductKeys(ps)[key] == ps[i].id
  {
    var entries := seq(|ps|, i requires 0 <= i < |ps| => (NameKey(ps[i].name), ps[i].id));
    forall i | 0 <= i < |ps|
      ensures NameKey(ps[i].name) in ProductKeys(ps)
    {
      KeyIndexHasKey(entries, i);
    }
    forall i | 0 <= i < |ps| && (forall j :: i < j < |ps| ==> NameKey(ps[j].name) != NameKey(ps[i].name))
      ensures ProductKeys(ps)[NameKey(ps[i].name)] == ps[i].id
    {
      KeyIndexLastWins(entries, i);
    }
    forall key | key in ProductKeys(ps)
      ensures exists i :: 0 <= i < |ps| && NameKey(ps[i].name) == key && ProductKeys(ps)[key] == ps[i].id
    {
      KeyIndexFrom(entries, key);
    }
  }

  /** A cell matches a stored name when they agree after trimming and lower-casing,
      in whichever order the two are applied: " Steel Sheet " is found from
      "STEEL SHEET", "steel sheet " or "Steel sheet". */
  lemma CellMatchesName(c: Cell, name: string)
    requires Strip(Lower(CellText(c))) == Strip(Lower(name))
    ensures CellKey(c) == NameKey(name)
  {
    StripLowerCommute(CellText(c));
  }

  /** Links are added row after row. */
  lemma {:induction false} KeptAppend(a: seq<Option<Link>>, b: seq<Option<Link>>)
    ensures Kept(a + b) == Kept(a) + Kept(b)
  {
    if b == [] {
      assert a + b == a;
    } else {
      assert (a + b)[..|a + b| - 1] == a + b[..|b| - 1];
      KeptAppend(a, b[..|b| - 1]);
    }
  }

  /** The links are exactly what the rows add: a link is stored if and only if some
      row adds it; every row adds at most one; when every row adds one, the links are
      the rows' links in row order, duplicates included. */
  lemma {:induction false} KeptExactly(rows: seq<Option<Link>>)
    ensures forall l :: l in Kept(rows) <==> Some(l) in rows
    ensures |Kept(rows)| <= |rows|
    ensures (forall i :: 0 <= i < |rows| ==> rows[i].Some?) ==>
      |Kept(rows)| == |rows| && forall i :: 0 <= i < |rows| ==> Kept(rows)[i] == rows[i].value
  {
    if rows != [] {
      var init := rows[..|rows| - 1];
      KeptExactly(init);
      assert rows == init + [rows[|rows| - 1]];
      forall l
        ensures l in Kept(rows) <==> Some(l) in rows
      {
        assert Some(l) in rows <==> Some(l) in init || rows[|rows| - 1] == Some(l);
      }
    }
  }

  /** Only the link table changes. Once the headers are normalised the links stored
      before play no part: every prior link is gone, whether or not the rows could be
      read. A header that is not text stops the run before the delete, and the prior
      links stay. */
  lemma LinkBatchReplaces(t: Tables, sheet: Sheet, prior: seq<Link>)
    ensures LinkBatch(t, sheet) == t.(links := LinkBatch(t, sheet).links)
    ensures sheet.headersAreText ==>
      LinkBatch(t.(links := prior), sheet) == LinkBatch(t, sheet)
    ensures !sheet.headersAreText ==> LinkBatch(t.(links := prior), sheet) == t.(links := prior)
  {
    assert LinkReads(t.(links := prior), sheet) == LinkReads(t, sheet);
  }

  /** After a run that reads every row, a link is stored if and only if some row adds
      it, and rows add links in order with duplicates kept. A run that raises on a row
      leaves no link at all, because the delete was committed first. A run that raises
      on a header changes nothing. */
  lemma LinkBatchLinks(t: Tables, sheet: Sheet)
    ensures !sheet.headersAreText ==> LinkBatch(t, sheet) == t
    ensures var parsed := LinkReads(t, sheet);
      sheet.headersAreText && AllRead(parsed) ==>
        && LinkBatch(t, sheet).links == Kept(Values(parsed))
        && forall l :: l in LinkBatch(t, sheet).links <==>
             exists i :: 0 <= i < |sheet.rows| && parsed[i] == Ok(Some(l))
    ensures sheet.headersAreText && !AllRead(LinkReads(t, sheet)) ==> LinkBatch(t, sheet).links == []
  {
    var parsed := LinkReads(t, sheet);
    if AllRead(parsed) {
      var rows := Values(parsed);
      KeptExactly(rows);
      forall l
        ensures l in Kept(rows) <==> exists i :: 0 <= i < |sheet.rows| && parsed[i] == Ok(Some(l))
      {
        if Some(l) in rows {
          var i :| 0 <= i < |rows| && rows[i] == Some(l);
          assert parsed[i] == Ok(Some(l));
        }
      }
    }
  }

  /** A row is added exactly when its material and product cells, trimmed and
      lower-cased, are keys of the two dictionaries and its quantity cell reads as a
      number; the link then carries the ids the keys map to and that number. */
  lemma LinkReadAdds(columns: seq<string>, materialKeys: map<string, nat>, productKeys: map<string, nat>, row: seq<Cell>)
    requires MaterialColumn in columns && ProductColumn in columns && QuantityColumn in columns
    ensures var m := CellKey(Get(columns, row, MaterialColumn).value);
      var p := CellKey(Get(columns, row, ProductColumn).value);
      var q := ParseCommaFloat(CellText(Get(columns, row, QuantityColumn).value));
      LinkRead(columns, materialKeys, productKeys, row)
        == Ok(if m in materialKeys && p in productKeys && q.Some? then Some(Link(materialKeys[m], productKeys[p], q.value)) else None)
  {
  }

  /** The rows of a sheet are read one by one, so dropping a row drops its reading. */
  lemma LinkReadsDrop(t: Tables, sheet: Sheet, i: nat)
    requires i < |sheet.rows|
    ensures var parsed := LinkReads(t, sheet);
      LinkReads(t, sheet.(rows := sheet.rows[..i] + sheet.rows[i + 1..])) == parsed[..i] + parsed[i + 1..]
  {
    var parsed := LinkReads(t, sheet);
    var shorter := sheet.(rows := sheet.rows[..i] + sheet.rows[i + 1..]);
    var rest := parsed[..i] + parsed[i + 1..];
    forall k | 0 <= k < |rest|
      ensures LinkReads(t, shorter)[k] == rest[k]
    {
      if k < i {
        assert shorter.rows[k] == sheet.rows[k];
      } else {
        assert shorter.rows[k] == sheet.rows[k + 1];
      }
    }
  }

  /** A reading that adds no link can be dropped without changing the links. */
  lemma KeptDrop(parsed: seq<Result<Option<Link>, Fault>>, i: nat)
    requires i < |parsed| && parsed[i] == Ok(None)
    ensures var rest := parsed[..i] + parsed[i + 1..];
      && (AllRead(rest) <==> AllRead(parsed))
      && (AllRead(parsed) ==> Kept(Values(rest)) == Kept(Values(parsed)))
  {
    DropRead(parsed, i);
    if AllRead(parsed) {
      var a, b := Values(parsed[..i]), Values(parsed[i + 1..]);
      var skipped: seq<Option<Link>> := [None];
      assert Kept(skipped) == [] by {
        assert skipped[..0] == [];
      }
      assert Values(parsed) == (a + skipped) + b;
      KeptAppend(a + skipped, b);
      KeptAppend(a, skipped);
      KeptAppend(a, b);
    }
  }

  /** A row that names no stored material is skipped before its product cell is read,
      so the product column need not exist: the links are exactly those of the batch
      without that row, and later rows still count. */
  lemma UnknownMaterialSkipped(t: Tables, sheet: Sheet, i: nat)
    requires i < |sheet.rows| && MaterialColumn in NormalizedColumns(sheet.columns)
    requires CellKey(Get(NormalizedColumns(sheet.columns), sheet.rows[i], MaterialColumn).value) !in MaterialKeys(t.materials)
    ensures LinkBatch(t, sheet) == LinkBatch(t, sheet.(rows := sheet.rows[..i] + sheet.rows[i + 1..]))
  {
    SkippedRowDrops(t, sheet, i);
  }

  /** A row that names no stored product is skipped, whatever its material: the links
      are exactly those of the batch without that row, and later rows still count. */
  lemma UnknownProductSkipped(t: Tables, sheet: Sheet, i: nat)
    requires i < |sheet.rows| && MaterialColumn in NormalizedColumns(sheet.columns)
    requires ProductColumn in NormalizedColumns(sheet.columns)
    requires CellKey(Get(NormalizedColumns(sheet.columns), sheet.rows[i], ProductColumn).value) !in ProductKeys(t.products)
    ensures LinkBatch(t, sheet) == LinkBatch(t, sheet.(rows := sheet.rows[..i] + sheet.rows[i + 1..]))
  {
    SkippedRowDrops(t, sheet, i);
  }

  /** A row that reads and adds no link can be dropped from the batch. */
  lemma SkippedRowDrops(t: Tables, sheet: Sheet, i: nat)
    requires i < |sheet.rows| && LinkReads(t, sheet)[i] == Ok(None)
    ensures LinkBatch(t, sheet) == LinkBatch(t, sheet.(rows := sheet.rows[..i] + sheet.rows[i + 1..]))
  {
    var parsed := LinkReads(t, sheet);
    LinkReadsDrop(t, sheet, i);
    KeptDrop(parsed, i);
  }

  /** A run on a sheet with rows but without the material column raises on its first
      row, after the delete: the store is left with no links. */
  lemma MissingColumnClearsLinks(t: Tables, sheet: Sheet)
    requires sheet.headersAreText
    requires sheet.rows != [] && MaterialColumn !in NormalizedColumns(sheet.columns)
    ensures LinkBatch(t, sheet) == t.(links := [])
  {
    assert LinkReads(t, sheet)[0].Err?;
  }

  /** A row whose names resolve through dictionaries of in-range ids adds an in-range link. */
  lemma LinkReadResolved(columns: seq<string>, mk: map<string, nat>, pk: map<string, nat>, row: seq<Cell>,
                         materialCount: nat, productCount: nat)
    requires forall key :: key in mk ==> 1 <= mk[key] <= materialCount
    requires forall key :: key in pk ==> 1 <= pk[key] <= productCount
    ensures var r := LinkRead(columns, mk, pk, row);
      r.Ok? && r.value.Some? ==>
        1 <= r.value.value.materialId <= materialCount && 1 <= r.value.value.productId <= productCount
  {
  }

  /** Every id in the material dictionary is a stored material's. */
  lemma MaterialKeysInRange(ms: seq<Material>)
    requires MaterialsNumbered(ms)
    ensures forall key :: key in MaterialKeys(ms) ==> 1 <= MaterialKeys(ms)[key] <= |ms|
  {
    MaterialKeysMeaning(ms);
  }

  /** Every id in the product dictionary is a stored product's. */
  lemma ProductKeysInRange(ps: seq<Product>)
    requires ProductsNumbered(ps)
    ensures forall key :: key in ProductKeys(ps) ==> 1 <= ProductKeys(ps)[key] <= |ps|
  {
    ProductKeysMeaning(ps);
  }

  /** Every stored link refers to a stored material and a stored product, so the run
      keeps the store consistent. */
  lemma LinkBatchConsistent(t: Tables, sheet: Sheet)
    requires Consistent(t)
    ensures Consistent(LinkBatch(t, sheet))
  {
    var parsed := LinkReads(t, sheet);
    if AllRead(parsed) {
      var rows := Values(parsed);
      var columns, mk, pk := NormalizedColumns(sheet.columns), MaterialKeys(t.materials), ProductKeys(t.products);
      MaterialKeysInRange(t.materials);
      ProductKeysInRange(t.products);
      KeptExactly(rows);
      forall l | l in Kept(rows)
        ensures 1 <= l.materialId <= |t.materials| && 1 <= l.productId <= |t.products|
      {
        var i :| 0 <= i < |rows| && rows[i] == Some(l);
        assert parsed[i] == LinkRead(columns, mk, pk, sheet.rows[i]);
        LinkReadResolved(columns, mk, pk, sheet.rows[i], |t.materials|, |t.products|);
      }
    }
  }
}
