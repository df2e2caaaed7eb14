/**
 * The five tables of the store: material types, materials, product types, products
 * and the material-product link table, with the constraints the schema declares.
 *
 * Every entity carries the integer primary key the store assigned it. The store
 * numbers rows 1, 2, 3, ... in insertion order and nothing in this system deletes a
 * material, product or type, so the row at position i has id i + 1 (`*Numbered`).
 */
module Models {
  import opened Wrappers
  import opened Seqs

  /** A material category; its name is required but need not be unique. */
  datatype MaterialType = MaterialType(id: nat, name: string)

  /** A raw material; its name is required and unique, every other field may be null. */
  datatype Material = Material(
    id: nat,
    typeId: nat,
    name: string,
    price: Option<real>,
    unit: Option<string>,
    packageQuantity: Option<real>,
    stockQuantity: Option<real>,
    minQuantity: Option<real>)

  /** A product category with the coefficient the yield computation divides by (required). */
  datatype ProductType = ProductType(id: nat, name: string, coefficient: real)

  /** A product; its article is required and unique, its name is required, its planned
      output `quantity` may be null and starts at 0.0. */
  datatype Product = Product(
    id: nat,
    typeId: nat,
    name: string,
    article: string,
    minPartnerPrice: Option<real>,
    quantity: Option<real>)

  /** One row of the link table: this much of the material goes into one unit of the
      product. The pair is not a key: the same pair may appear any number of times. */
  datatype Link = Link(materialId: nat, productId: nat, quantity: real)

  /** The whole store. */
  datatype Tables = Tables(
    materialTypes: seq<MaterialType>,
    materials: seq<Material>,
    productTypes: seq<ProductType>,
    products: seq<Product>,
    links: seq<Link>)

  /** The column default of `Product.quantity`. */
  const DefaultProductQuantity: Option<real> := Some(0.0)

  const EmptyTables := Tables([], [], [], [], [])

  /** The store after a transaction: its result when it commits, the old state when it
      is rolled back. */
  function Committed<E>(t: Tables, outcome: Result<Tables, E>): Tables {
    if outcome.Ok? then outcome.value else t
  }

  predicate MaterialTypesNumbered(ts: seq<MaterialType>) {
    forall i :: 0 <= i < |ts| ==> ts[i].id == i + 1
  }

  predicate MaterialsNumbered(ms: seq<Material>) {
    forall i :: 0 <= i < |ms| ==> ms[i].id == i + 1
  }

  predicate ProductTypesNumbered(ts: seq<ProductType>) {
    forall i :: 0 <= i < |ts| ==> ts[i].id == i + 1
  }

  predicate ProductsNumbered(ps: seq<Product>) {
    forall i :: 0 <= i < |ps| ==> ps[i].id == i + 1
  }

  /** The unique constraint on `Material.name`. */
  predicate UniqueMaterialNames(ms: seq<Material>) {
    forall i, j :: 0 <= i < j < |ms| ==> ms[i].name != ms[j].name
  }

  /** The unique constraint on `Product.article`. */
  predicate UniqueArticles(ps: seq<Product>) {
    forall i, j :: 0 <= i < j < |ps| ==> ps[i].article != ps[j].article
  }

  /** Every material refers to one of `typeCount` material types. */
  predicate MaterialsTyped(ms: seq<Material>, typeCount: nat) {
    forall i :: 0 <= i < |ms| ==> 1 <= ms[i].typeId <= typeCount
  }

  /** Every product refers to one of `typeCount` product types. */
  predicate ProductsTyped(ps: seq<Product>, typeCount: nat) {
    forall i :: 0 <= i < |ps| ==> 1 <= ps[i].typeId <= typeCount
  }

  /** Every link refers to an existing material and an existing product. */
  predicate LinksResolved(ls: seq<Link>, materialCount: nat, productCount: nat) {
    forall i :: 0 <= i < |ls| ==>
      1 <= ls[i].materialId <= materialCount && 1 <= ls[i].productId <= productCount
  }

  predicate MaterialsConsistent(ms: seq<Material>, typeCount: nat) {
    MaterialsNumbered(ms) && UniqueMaterialNames(ms) && MaterialsTyped(ms, typeCount)
  }

  predicate ProductsConsistent(ps: seq<Product>, typeCount: nat) {
    ProductsNumbered(ps) && UniqueArticles(ps) && ProductsTyped(ps, typeCount)
  }

  /** The state every operation of the system starts from and leaves behind. */
  predicate Consistent(t: Tables) {
    && MaterialTypesNumbered(t.materialTypes)
    && ProductTypesNumbered(t.productTypes)
    && MaterialsConsistent(t.materials, |t.materialTypes|)
    && ProductsConsistent(t.products, |t.productTypes|)
    && LinksResolved(t.links, |t.materials|, |t.products|)
  }

  /** `query(MaterialType).filter_by(name=name).first()`, as a position. */
  function MaterialTypeNamed(ts: seq<MaterialType>, name: string): (r: Option<nat>)
    ensures r.Some? ==> (r.value < |ts| && ts[r.value].name == name
      && forall j :: 0 <= j < r.value ==> ts[j].name != name)
    ensures r.None? ==> forall j :: 0 <= j < |ts| ==> ts[j].name != name
  {
    First(ts, (t: MaterialType) => t.name == name)
  }

  /** `query(ProductType).filter_by(name=name).first()`, as a position. */
  function ProductTypeNamed(ts: seq<ProductType>, name: string): (r: Option<nat>)
    ensures r.Some? ==> (r.value < |ts| && ts[r.value].name == name
      && forall j :: 0 <= j < r.value ==> ts[j].name != name)
    ensures r.None? ==> forall j :: 0 <= j < |ts| ==> ts[j].name != name
  {
    First(ts, (t: ProductType) => t.name == name)
  }

  /** `query(Material).filter_by(name=name).first()`, as a position. */
  function MaterialNamed(ms: seq<Material>, name: string): (r: Option<nat>)
    ensures r.Some? ==> (r.value < |ms| && ms[r.value].name == name
      && forall j :: 0 <= j < r.value ==> ms[j].name != name)
    ensures r.None? ==> forall j :: 0 <= j < |ms| ==> ms[j].name != name
  {
    First(ms, (m: Material) => m.name == name)
  }

  /** `query(Product).filter_by(article=article).first()`, as a position. */
  function ProductWithArticle(ps: seq<Product>, article: string): (r: Option<nat>)
    ensures r.Some? ==> (r.value < |ps| && ps[r.value].article == article
      && forall j :: 0 <= j < r.value ==> ps[j].article != article)
    ensures r.None? ==> forall j :: 0 <= j < |ps| ==> ps[j].article != article
  {
    First(ps, (p: Product) => p.article == article)
  }

  /** `query(Material).filter(Material.id == id).first()`, as a position. */
  function MaterialWithId(ms: seq<Material>, id: nat): (r: Option<nat>)
    ensures r.Some? ==> r.value < |ms| && ms[r.value].id == id
    ensures r.None? ==> forall j :: 0 <= j < |ms| ==> ms[j].id != id
  {
    First(ms, (m: Material) => m.id == id)
  }

  /** `query(Product).filter(Product.id == id).first()`, as a position. */
  function ProductWithId(ps: seq<Product>, id: nat): (r: Option<nat>)
    ensures r.Some? ==> r.value < |ps| && ps[r.value].id == id
    ensures r.None? ==> forall j :: 0 <= j < |ps| ==> ps[j].id != id
  {
    First(ps, (p: Product) => p.id == id)
  }

  /** `query(ProductType).filter(ProductType.id == id).first()`, as a position. */
  function ProductTypeWithId(ts: seq<ProductType>, id: nat): (r: Option<nat>)
    ensures r.Some? ==> r.value < |ts| && ts[r.value].id == id
    ensures r.None? ==> forall j :: 0 <= j < |ts| ==> ts[j].id != id
  {
    First(ts, (t: ProductType) => t.id == id)
  }

  /** In a numbered table, looking up an id finds exactly the row at position id - 1. */
  lemma MaterialIdIsPosition(ms: seq<Material>, id: nat)
    requires MaterialsNumbered(ms)
    ensures MaterialWithId(ms, id) == if 1 <= id <= |ms| then Some(id - 1) else None
  {
    if 1 <= id <= |ms| {
      assert ms[id - 1].id == id;
    }
  }

  lemma ProductIdIsPosition(ps: seq<Product>, id: nat)
    requires ProductsNumbered(ps)
    ensures ProductWithId(ps, id) == if 1 <= id <= |ps| then Some(id - 1) else None
  {
    if 1 <= id <= |ps| {
      assert ps[id - 1].id == id;
    }
  }
}
