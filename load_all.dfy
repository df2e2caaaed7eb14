/**
 * `load_all_data`: the five loaders run in a fixed order against one store.
 *
 * Each phase runs only when its file exists, and a phase that fails is reported
 * and the next one still runs. `create_tables` creates the tables that are missing
 * and keeps the rows of those that exist, so a run starts from whatever the store
 * already holds.
 */
module DataLoad {
  import opened Wrappers
  import opened Models
  import opened Sheets
  import opened Store
  import TypeLoader
  import MaterialLoader
  import ProductLoader
  import LinkLoader

  /** The five import files, each `None` when it does not exist. */
  datatype Sources = Sources(
    materialTypes: Option<Sheet>,
    materials: Option<Sheet>,
    productTypes: Option<Sheet>,
    products: Option<Sheet>,
    links: Option<Sheet>)

  function MaterialTypesPhase(t: Tables, file: Option<Sheet>): Tables {
    if file.Some? then Committed(t, TypeLoader.MaterialTypeBatch(t, file.value)) else t
  }

  function MaterialsPhase(t: Tables, file: Option<Sheet>): Tables {
    if file.Some? then Committed(t, MaterialLoader.MaterialBatch(t, file.value)) else t
  }

  function ProductTypesPhase(t: Tables, file: Option<Sheet>): Tables {
    if file.Some? then Committed(t, TypeLoader.ProductTypeBatch(t, file.value)) else t
  }

  function ProductsPhase(t: Tables, file: Option<Sheet>): Tables {
    if file.Some? then Committed(t, ProductLoader.ProductBatch(t, file.value)) else t
  }

  function LinksPhase(t: Tables, file: Option<Sheet>): Tables {
    if file.Some? then LinkLoader.LinkBatch(t, file.value) else t
  }

  /** The store after `load_all_data`. */
  function LoadAll(t: Tables, sources: Sources): Tables {
    var t1 := MaterialTypesPhase(t, sources.materialTypes);
    var t2 := MaterialsPhase(t1, sources.materials);
    var t3 := ProductTypesPhase(t2, sources.productTypes);
    var t4 := ProductsPhase(t3, sources.products);
    LinksPhase(t4, sources.links)
  }

  /** `load_all_data`, on the store `create_tables` leaves behind. */
  method LoadAllData(db: Database, sources: Sources)
    modifies db
    ensures db.Snapshot() == LoadAll(old(db.Snapshot()), sources)
    ensures old(db.Valid()) ==> db.Valid()
  {
    if sources.materialTypes.Some? {
      TypeLoader.LoadMaterialTypes(db, sources.materialTypes.value);
    }
    if sources.materials.Some? {
      MaterialLoader.LoadMaterials(db, sources.materials.value);
    }
    if sources.productTypes.Some? {
      TypeLoader.LoadProductTypes(db, sources.productTypes.value);
    }
    if sources.products.Some? {
      ProductLoader.LoadProducts(db, sources.products.value);
    }
    if sources.links.Some? {
      LinkLoader.LoadLinks(db, sources.links.value);
    }
  }

  /** Every phase, whether it commits, fails or is skipped, keeps the store consistent,
      so the whole run does: every material and product has a stored category, names
      and articles stay unique, and every link refers to stored rows. */
  lemma LoadAllConsistent(t: Tables, sources: Sources)
    requires Consistent(t)
    ensures Consistent(LoadAll(t, sources))
  {
    var t1 := MaterialTypesPhase(t, sources.materialTypes);
    if sources.materialTypes.Some? && TypeLoader.MaterialTypeBatch(t, sources.materialTypes.value).Ok? {
      TypeLoader.MaterialTypeBatchConsistent(t, sources.materialTypes.value);
    }
    var t2 := MaterialsPhase(t1, sources.materials);
    if sources.materials.Some? && MaterialLoader.MaterialBatch(t1, sources.materials.value).Ok? {
      MaterialLoader.MaterialBatchConsistent(t1, sources.materials.value);
    }
    var t3 := ProductTypesPhase(t2, sources.productTypes);
    if sources.productTypes.Some? && TypeLoader.ProductTypeBatch(t2, sources.productTypes.value).Ok? {
      TypeLoader.ProductTypeBatchConsistent(t2, sources.productTypes.value);
    }
    var t4 := ProductsPhase(t3, sources.products);
    if sources.products.Some? && ProductLoader.ProductBatch(t3, sources.products.value).Ok? {
      ProductLoader.ProductBatchConsistent(t3, sources.products.value);
    }
    if sources.links.Some? {
      LinkLoader.LinkBatchConsistent(t4, sources.links.value);
    }
  }

  /** A first run, on a new store file, leaves a consistent store. */
  lemma FirstLoadConsistent(sources: Sources)
    ensures Consistent(LoadAll(EmptyTables, sources))
  {
    LoadAllConsistent(EmptyTables, sources);
  }

  /** The first four phases neither read nor write the links. */
  lemma EarlyPhasesIgnoreLinks(t: Tables, sources: Sources, prior: seq<Link>)
    ensures var u := t.(links := prior);
      var a := ProductsPhase(ProductTypesPhase(MaterialsPhase(MaterialTypesPhase(t, sources.materialTypes),
        sources.materials), sources.productTypes), sources.products);
      var b := ProductsPhase(ProductTypesPhase(MaterialsPhase(MaterialTypesPhase(u, sources.materialTypes),
        sources.materials), sources.productTypes), sources.products);
      a.links == t.links && b == a.(links := prior)
  {
    var u := t.(links := prior);
    var a1, b1 := MaterialTypesPhase(t, sources.materialTypes), MaterialTypesPhase(u, sources.materialTypes);
    assert a1.links == t.links && b1 == a1.(links := prior);
    var a2, b2 := MaterialsPhase(a1, sources.materials), MaterialsPhase(b1, sources.materials);
    assert a2.links == t.links && b2 == a2.(links := prior);
    var a3, b3 := ProductTypesPhase(a2, sources.productTypes), ProductTypesPhase(b2, sources.productTypes);
    assert a3.links == t.links && b3 == a3.(links := prior);
  }

  /** With a link file whose headers are text, the links stored before the run play no
      part in the result: the link table is replaced, not merged. Without a link file,
      or with one whose headers cannot be normalised, the run keeps them as they were. */
  lemma LoadAllLinks(t: Tables, sources: Sources, prior: seq<Link>)
    ensures sources.links.Some? && sources.links.value.headersAreText ==>
      LoadAll(t.(links := prior), sources) == LoadAll(t, sources)
    ensures sources.links.None? || !sources.links.value.headersAreText ==>
      LoadAll(t, sources).links == t.links
  {
    EarlyPhasesIgnoreLinks(t, sources, prior);
    if sources.links.Some? {
      var t4 := ProductsPhase(ProductTypesPhase(MaterialsPhase(MaterialTypesPhase(t, sources.materialTypes),
        sources.materials), sources.productTypes), sources.products);
      LinkLoader.LinkBatchReplaces(t4, sources.links.value, prior);
    }
  }
}
