/**
 * `MaterialService`: the queries, calculators and edits the windows call.
 *
 * Each operation opens its own session on the store. The two edits commit once; a
 * commit that breaks the unique constraint on material names is caught and reported
 * as no result, with nothing stored. An unknown category name raises, also with
 * nothing stored.
 */
module Service {
  import opened Wrappers
  import opened Seqs
  import opened Models
  import opened Store

  /** The share of material lost in production. */
  const LossRate: real := 0.05

  /** What `calculate_product_quantity` returns when it cannot compute a yield. */
  const Failed: real := -1.0

  /** The fields the material form submits; the form has already turned the four
      numbers into floats. */
  datatype MaterialData = MaterialData(
    typeName: string,
    name: string,
    price: real,
    unit: string,
    packageQuantity: real,
    stockQuantity: real,
    minQuantity: real)

  /** How an edit ends: the saved material, `None` (an unknown id or a name that is
      already taken), or the ValueError for a category name that no type has. */
  datatype SaveOutcome = Saved(material: Material) | NoResult | TypeNotFound(typeName: string)

  /** An edit's outcome together with the store it leaves. */
  datatype Saving = Saving(outcome: SaveOutcome, after: Tables)

  /** A material row holding the submitted fields. */
  function FromData(id: nat, typeId: nat, data: MaterialData): Material {
    Material(id, typeId, data.name, Some(data.price), Some(data.unit), Some(data.packageQuantity),
      Some(data.stockQuantity), Some(data.minQuantity))
  }

  /** Some material other than the one at position `k` is called `name`. */
  predicate NameTakenElsewhere(ms: seq<Material>, k: nat, name: string) {
    exists j :: 0 <= j < |ms| && j != k && ms[j].name == name
  }

  /** `add_material`: the category is the first one named exactly `typeName`; the new
      row takes the next id; a name already in use violates the unique constraint at
      commit, which is caught. */
  function Add(t: Tables, data: MaterialData): Saving {
    match MaterialTypeNamed(t.materialTypes, data.typeName)
    case None => Saving(TypeNotFound(data.typeName), t)
    case Some(k) =>
      if MaterialNamed(t.materials, data.name).Some? then Saving(NoResult, t)
      else
        var m := FromData(|t.materials| + 1, t.materialTypes[k].id, data);
        Saving(Saved(m), t.(materials := t.materials + [m]))
  }

  /** `update_material`: an unknown id gives no result before the category is looked
      up; otherwise all seven submitted fields overwrite the row, which keeps its id. */
  function Update(t: Tables, id: nat, data: MaterialData): Saving {
    match MaterialWithId(t.materials, id)
    case None => Saving(NoResult, t)
    case Some(i) =>
      match MaterialTypeNamed(t.materialTypes, data.typeName)
      case None => Saving(TypeNotFound(data.typeName), t)
      case Some(k) =>
        if NameTakenElsewhere(t.materials, i, data.name) then Saving(NoResult, t)
        else
          var m := FromData(t.materials[i].id, t.materialTypes[k].id, data);
          Saving(Saved(m), t.(materials := t.materials[i := m]))
  }

  /** `query(material_product).filter(material_id == id).all()`: the material's links
      in table order, duplicates included. */
  function LinksOf(ls: seq<Link>, materialId: nat): seq<Link> {
    Filter((l: Link) => l.materialId == materialId, ls)
  }

  /** What one link adds to the total: its quantity times the product's planned
      quantity, or nothing when the product is missing or its quantity is null or 0. */
  function Contribution(ps: seq<Product>, l: Link): real {
    match ProductWithId(ps, l.productId)
    case None => 0.0
    case Some(k) =>
      if ps[k].quantity.Some? && ps[k].quantity.value != 0.0 then l.quantity * ps[k].quantity.value else 0.0
  }

  /** The contributions of a run of links, added up in order. */
  function LinkSum(ps: seq<Product>, ls: seq<Link>): real {
    if ls == [] then 0.0 else LinkSum(ps, ls[..|ls| - 1]) + Contribution(ps, ls[|ls| - 1])
  }

  /** `calculate_required_quantity`: 0.0 for an unknown material, otherwise the sum over
      its links. */
  function RequiredQuantity(t: Tables, materialId: nat): real {
    if MaterialWithId(t.materials, materialId).None? then 0.0
    else LinkSum(t.products, LinksOf(t.links, materialId))
  }

  class MaterialService {
    const db: Database

    constructor (db: Database)
      ensures this.db == db
    {
      this.db := db;
    }

    /** `get_material_by_id`: the first material with that id, if any. */
    function GetMaterialById(id: nat): (r: Option<Material>)
      reads db
      ensures r.Some? ==> r.value in db.materials && r.value.id == id
      ensures r.None? ==> forall m :: m in db.materials ==> m.id != id
    {
      match MaterialWithId(db.materials, id)
      case None => None
      case Some(i) => Some(db.materials[i])
    }

    /** `add_material`. */
    method AddMaterial(data: MaterialData) returns (outcome: SaveOutcome)
      modifies db
      ensures Saving(outcome, db.Snapshot()) == Add(old(db.Snapshot()), data)
      ensures old(db.Valid()) ==> db.Valid()
    {
      if db.Valid() {
        AddConsistent(db.Snapshot(), data);
      }
      var materialType := MaterialTypeNamed(db.materialTypes, data.typeName);
      if materialType.None? {
        return TypeNotFound(data.typeName);
      }
      if MaterialNamed(db.materials, data.name).Some? {
        return NoResult;
      }
      var material := FromData(|db.materials| + 1, db.materialTypes[materialType.value].id, data);
      db.materials := db.materials + [material];
      return Saved(material);
    }

    /** `update_material`. */
    method UpdateMaterial(id: nat, data: MaterialData) returns (outcome: SaveOutcome)
      modifies db
      ensures Saving(outcome, db.Snapshot()) == Update(old(db.Snapshot()), id, data)
      ensures old(db.Valid()) ==> db.Valid()
    {
      if db.Valid() {
        UpdateConsistent(db.Snapshot(), id, data);
      }
      var found := MaterialWithId(db.materials, id);
      if found.None? {
        return NoResult;
      }
      var materialType := MaterialTypeNamed(db.materialTypes, data.typeName);
      if materialType.None? {
        return TypeNotFound(data.typeName);
      }
      if NameTakenElsewhere(db.materials, found.value, data.name) {
        return NoResult;
      }
      var material := FromData(db.materials[found.value].id, db.materialTypes[materialType.value].id, data);
      db.materials := db.materials[found.value := material];
      return Saved(material);
    }

    /** `calculate_required_quantity`: reads the store and changes nothing. */
    method CalculateRequiredQuantity(materialId: nat) returns (total: real)
      ensures total == RequiredQuantity(db.Snapshot(), materialId)
    {
      if MaterialWithId(db.materials, materialId).None? {
        return 0.0;
      }
      var materialProducts := LinksOf(db.links, materialId);
      total := 0.0;
      for i := 0 to |materialProducts|
        invariant total == LinkSum(db.products, materialProducts[..i])
      {
        var mp := materialProducts[i];
        var product := ProductWithId(db.products, mp.productId);
        if product.Some? && db.products[product.value].quantity.Some? && db.products[product.value].quantity.value != 0.0 {
          total := total + mp.quantity * db.products[product.value].quantity.value;
        }
        assert materialProducts[..i + 1][..i] == materialProducts[..i];
      }
      assert materialProducts[..|materialProducts|] == materialProducts;
    }

    /** `calculate_product_quantity`: how many units of a product of the given type the
        material yields after a 5% loss, when one unit takes `param1 * param2 *
        coefficient` of it; `Failed` for an unknown type or a per-unit need that is not
        positive. The result is not rounded. */
    function CalculateProductQuantity(productTypeId: nat, materialQuantity: real, param1: real, param2: real): (r: real)
      reads db
      ensures ProductTypeWithId(db.productTypes, productTypeId).None? ==> r == Failed
      ensures match ProductTypeWithId(db.productTypes, productTypeId)
        case None => true
        case Some(k) =>
          var perProduct := param1 * param2 * db.productTypes[k].coefficient;
          && (perProduct <= 0.0 ==> r == Failed)
          && (perProduct > 0.0 ==> r * perProduct == materialQuantity * (1.0 - LossRate))
          && (perProduct > 0.0 ==> (r >= 0.0 <==> materialQuantity >= 0.0))
    {
      match ProductTypeWithId(db.productTypes, productTypeId)
      case None => Failed
      case Some(k) =>
        var perProduct := param1 * param2 * db.productTypes[k].coefficient;
        if perProduct <= 0.0 then Failed
        else
          var effective := materialQuantity * (1.0 - LossRate);
          effective / perProduct
    }
  }

  /** Adding a link adds its contribution when it belongs to the material, and nothing
      otherwise: every link counts, a duplicate as often as it is stored. */
  lemma AddLinkContributes(t: Tables, materialId: nat, l: Link)
    requires MaterialWithId(t.materials, materialId).Some?
    ensures RequiredQuantity(t.(links := t.links + [l]), materialId)
      == RequiredQuantity(t, materialId) + (if l.materialId == materialId then Contribution(t.products, l) else 0.0)
  {
    var p := (k: Link) => k.materialId == materialId;
    FilterAppend(p, t.links, [l]);
    var mine := LinksOf(t.links, materialId);
    if l.materialId == materialId {
      assert LinksOf(t.links + [l], materialId) == mine + [l];
      assert (mine + [l])[..|mine + [l]| - 1] == mine;
    } else {
      assert LinksOf(t.links + [l], materialId) == mine;
    }
  }

  /** A material with no links needs nothing; so does an unknown one. */
  lemma NoLinksNoneRequired(t: Tables, materialId: nat)
    requires forall i :: 0 <= i < |t.links| ==> t.links[i].materialId != materialId
    ensures RequiredQuantity(t, materialId) == 0.0
  {
  }

  /** Links of other materials play no part. */
  lemma OtherLinksIgnored(t: Tables, materialId: nat)
    ensures RequiredQuantity(t.(links := LinksOf(t.links, materialId)), materialId) == RequiredQuantity(t, materialId)
  {
    var p := (k: Link) => k.materialId == materialId;
    FilterTwice(p, p, p, t.links);
  }

  /** With no negative link quantity and no negative planned quantity the total is
      never negative. */
  lemma {:induction false} LinkSumNonNegative(ps: seq<Product>, ls: seq<Link>)
    requires forall i :: 0 <= i < |ls| ==> ls[i].quantity >= 0.0
    requires forall k :: 0 <= k < |ps| && ps[k].quantity.Some? ==> ps[k].quantity.value >= 0.0
    ensures LinkSum(ps, ls) >= 0.0
  {
    if ls != [] {
      LinkSumNonNegative(ps, ls[..|ls| - 1]);
      var l := ls[|ls| - 1];
      assert Contribution(ps, l) >= 0.0;
    }
  }

  lemma RequiredQuantityNonNegative(t: Tables, materialId: nat)
    requires forall i :: 0 <= i < |t.links| ==> t.links[i].quantity >= 0.0
    requires forall k :: 0 <= k < |t.products| && t.products[k].quantity.Some? ==> t.products[k].quantity.value >= 0.0
    ensures RequiredQuantity(t, materialId) >= 0.0
  {
    var mine := LinksOf(t.links, materialId);
    forall i | 0 <= i < |mine|
      ensures mine[i].quantity >= 0.0
    {
      assert mine[i] in t.links;
    }
    LinkSumNonNegative(t.products, mine);
  }

  /** The links of material 1 in the example below. */
  lemma ExampleLinks()
    ensures LinksOf([Link(1, 1, 2.0), Link(2, 1, 5.0), Link(1, 2, 3.0), Link(1, 3, 7.0)], 1)
      == [Link(1, 1, 2.0), Link(1, 2, 3.0), Link(1, 3, 7.0)]
  {
    var ls := [Link(1, 1, 2.0), Link(2, 1, 5.0), Link(1, 2, 3.0), Link(1, 3, 7.0)];
    assert LinksOf(ls[3..], 1) == [ls[3]];
    assert LinksOf(ls[2..], 1) == [ls[2], ls[3]] by {
      assert ls[2..][1..] == ls[3..];
    }
    assert LinksOf(ls[1..], 1) == [ls[2], ls[3]] by {
      assert ls[1..][1..] == ls[2..];
    }
  }

  /** The sum over those links in the example below. */
  lemma ExampleSum(ps: seq<Product>)
    requires ps == [Product(1, 1, "Панель", "A1", None, Some(4.0)), Product(2, 1, "Плита", "A2", None, Some(6.0)),
                    Product(3, 1, "Лист", "A3", None, Some(0.0))]
    ensures LinkSum(ps, [Link(1, 1, 2.0), Link(1, 2, 3.0), Link(1, 3, 7.0)]) == 26.0
  {
    var first, second, third := Link(1, 1, 2.0), Link(1, 2, 3.0), Link(1, 3, 7.0);
    ProductIdIsPosition(ps, 1);
    ProductIdIsPosition(ps, 2);
    ProductIdIsPosition(ps, 3);
    assert LinkSum(ps, [first]) == 8.0 by {
      assert [first][..0] == [];
    }
    assert LinkSum(ps, [first, second]) == 26.0 by {
      assert [first, second][..1] == [first];
    }
    assert [first, second, third][..2] == [first, second];
  }

  /** A material used twice per unit of a product planned at 4 units and three times
      per unit of one planned at 6 needs 2 * 4 + 3 * 6 = 26; another material's link
      and a link to a product planned at 0 add nothing. */
  lemma RequiredQuantityExample(t: Tables)
    requires t.materials == [Material(1, 1, "Гранулы", None, None, None, None, None)]
    requires t.products == [Product(1, 1, "Панель", "A1", None, Some(4.0)), Product(2, 1, "Плита", "A2", None, Some(6.0)),
                            Product(3, 1, "Лист", "A3", None, Some(0.0))]
    requires t.links == [Link(1, 1, 2.0), Link(2, 1, 5.0), Link(1, 2, 3.0), Link(1, 3, 7.0)]
    ensures RequiredQuantity(t, 1) == 26.0
  {
    ExampleLinks();
    ExampleSum(t.products);
    assert MaterialWithId(t.materials, 1) == Some(0);
  }

  /** A product type with coefficient 2 and parameters 1 and 1 turn 100 units of
      material into 47.5 products; the products window always passes 1 and 1. */
  lemma ProductQuantityExample(s: MaterialService)
    requires s.db.productTypes == [ProductType(1, "Ламинат", 2.0)]
    ensures s.CalculateProductQuantity(1, 100.0, 1.0, 1.0) == 47.5
    ensures s.CalculateProductQuantity(2, 100.0, 1.0, 1.0) == Failed
    ensures s.CalculateProductQuantity(1, 100.0, 0.0, 1.0) == Failed
  {
  }

  /** The sentinel is also a real answer: a negative material quantity of -20/19
      yields exactly -1 products, which a caller cannot tell from a failure. */
  lemma SentinelIsAmbiguous(s: MaterialService)
    requires s.db.productTypes == [ProductType(1, "Ламинат", 1.0)]
    ensures s.CalculateProductQuantity(1, -20.0 / 19.0, 1.0, 1.0) == Failed
  {
  }

  /** `add_material` raises for a category name that no type has exactly, and stores
      nothing; otherwise a name already in use stores nothing either. */
  lemma AddOutcomes(t: Tables, data: MaterialData)
    ensures var s := Add(t, data);
      && (s.outcome.TypeNotFound? <==> forall j :: 0 <= j < |t.materialTypes| ==> t.materialTypes[j].name != data.typeName)
      && (s.outcome.NoResult? <==> !s.outcome.TypeNotFound? && exists j :: 0 <= j < |t.materials| && t.materials[j].name == data.name)
      && (!s.outcome.Saved? ==> s.after == t)
  {
  }

  /** A saved material is appended with the submitted fields, a category named exactly
      as asked and the next id; it can then be found by that id and by its name, and
      nothing else in the store changes. */
  lemma AddSaves(t: Tables, data: MaterialData)
    requires Consistent(t) && Add(t, data).outcome.Saved?
    ensures var s := Add(t, data); var m := s.outcome.material;
      && s.after == t.(materials := t.materials + [m])
      && m.name == data.name && m.price == Some(data.price) && m.unit == Some(data.unit)
      && m.packageQuantity == Some(data.packageQuantity) && m.stockQuantity == Some(data.stockQuantity)
      && m.minQuantity == Some(data.minQuantity)
      && 1 <= m.typeId <= |t.materialTypes| && t.materialTypes[m.typeId - 1].name == data.typeName
      && MaterialWithId(s.after.materials, m.id) == Some(|t.materials|)
      && MaterialNamed(s.after.materials, data.name) == Some(|t.materials|)
  {
    var s := Add(t, data);
    var m := s.outcome.material;
    MaterialIdIsPosition(s.after.materials, m.id);
  }

  /** Submitting the same form twice stores the material once: the second commit
      breaks the unique name. */
  lemma AddTwiceStoresOnce(t: Tables, data: MaterialData)
    requires Add(t, data).outcome.Saved?
    ensures var once := Add(t, data).after;
      Add(once, data) == Saving(NoResult, once)
  {
    var once := Add(t, data).after;
    assert once.materials[|t.materials|].name == data.name;
  }

  lemma AddConsistent(t: Tables, data: MaterialData)
    requires Consistent(t)
    ensures Consistent(Add(t, data).after)
  {
  }

  /** An unknown id gives no result and stores nothing, whatever the category; an
      unknown category raises and stores nothing. */
  lemma UpdateOutcomes(t: Tables, id: nat, data: MaterialData)
    ensures var s := Update(t, id, data);
      && ((forall j :: 0 <= j < |t.materials| ==> t.materials[j].id != id) ==> s.outcome == NoResult)
      && (s.outcome.TypeNotFound? <==>
            (exists j :: 0 <= j < |t.materials| && t.materials[j].id == id)
            && forall j :: 0 <= j < |t.materialTypes| ==> t.materialTypes[j].name != data.typeName)
      && (!s.outcome.Saved? ==> s.after == t)
  {
  }

  /** A saved update overwrites the seven submitted fields of that one material and
      keeps its id; every other material and every other table is unchanged, and the
      material reads back by its id with the new fields. */
  lemma UpdateSaves(t: Tables, id: nat, data: MaterialData)
    requires Consistent(t) && Update(t, id, data).outcome.Saved?
    ensures var s := Update(t, id, data); var m := s.outcome.material;
      && 1 <= id <= |t.materials| && m.id == id
      && m.name == data.name && m.price == Some(data.price) && m.unit == Some(data.unit)
      && m.packageQuantity == Some(data.packageQuantity) && m.stockQuantity == Some(data.stockQuantity)
      && m.minQuantity == Some(data.minQuantity)
      && 1 <= m.typeId <= |t.materialTypes| && t.materialTypes[m.typeId - 1].name == data.typeName
      && |s.after.materials| == |t.materials| && s.after.materials[id - 1] == m
      && (forall j :: 0 <= j < |t.materials| && j != id - 1 ==> s.after.materials[j] == t.materials[j])
      && s.after == t.(materials := s.after.materials)
      && MaterialWithId(s.after.materials, id) == Some(id - 1)
  {
    MaterialIdIsPosition(t.materials, id);
    var s := Update(t, id, data);
    MaterialIdIsPosition(s.after.materials, id);
  }

  /** Saving the same form twice changes nothing the second time. */
  lemma UpdateIdempotent(t: Tables, id: nat, data: MaterialData)
    requires Consistent(t)
    ensures var once := Update(t, id, data).after;
      Update(once, id, data).after == once
  {
    MaterialIdIsPosition(t.materials, id);
    var once := Update(t, id, data);
    if once.outcome.Saved? {
      UpdateConsistent(t, id, data);
      MaterialIdIsPosition(once.after.materials, id);
      assert once.after.materials[id - 1 := once.outcome.material] == once.after.materials;
    }
  }

  lemma UpdateConsistent(t: Tables, id: nat, data: MaterialData)
    requires Consistent(t)
    ensures Consistent(Update(t, id, data).after)
  {
    var s := Update(t, id, data);
    if s.outcome.Saved? {
      MaterialIdIsPosition(t.materials, id);
      var ms := s.after.materials;
      forall i, j | 0 <= i < j < |ms|
        ensures ms[i].name != ms[j].name
      {
        if i != id - 1 && j != id - 1 {
          assert ms[i] == t.materials[i] && ms[j] == t.materials[j];
        }
      }
    }
  }
}
