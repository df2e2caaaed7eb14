/**
 * `filter_materials` of the main window: the search panel's four inputs applied to
 * the materials the service returned.
 *
 * The name box is trimmed and lower-cased and kept as a substring filter on the
 * lower-cased name; the type box is an exact match on the category name; the two
 * quantity boxes are inclusive bounds on the stock quantity. Each filter is off
 * while its box is empty. If either bound is not a number, `float` raises
 * ValueError, which is caught: then neither bound applies. A bound that applies to
 * a material whose stock quantity is null compares `None` with a float, which
 * raises TypeError; that one is not caught, and no list is produced.
 */
module MaterialFilter {
  import opened Wrappers
  import opened Seqs
  import opened Text
  import opened Models

  /** A material as the service hands it to the window, with its category's name
      loaded alongside. */
  datatype ListedMaterial = ListedMaterial(material: Material, typeName: string)

  /** The name box's contents as the filter uses them. */
  function NameKey(nameText: string): string {
    Lower(Strip(nameText))
  }

  predicate NameMatches(x: ListedMaterial, key: string) {
    key == [] || Contains(Lower(x.material.name), key)
  }

  predicate TypeMatches(x: ListedMaterial, typeText: string) {
    typeText == [] || x.typeName == typeText
  }

  /** The stock quantity is known and within every bound that is set; both bounds are
      inclusive. */
  predicate InRange(x: ListedMaterial, low: Option<real>, high: Option<real>) {
    var stock := x.material.stockQuantity;
    && (low.Some? ==> stock.Some? && stock.value >= low.value)
    && (high.Some? ==> stock.Some? && stock.value <= high.value)
  }

  function ByName(key: string): ListedMaterial -> bool {
    (x: ListedMaterial) => Contains(Lower(x.material.name), key)
  }

  function ByType(typeText: string): ListedMaterial -> bool {
    (x: ListedMaterial) => x.typeName == typeText
  }

  function AtLeast(low: real): ListedMaterial -> bool {
    (x: ListedMaterial) => x.material.stockQuantity.Some? && x.material.stockQuantity.value >= low
  }

  function AtMost(high: real): ListedMaterial -> bool {
    (x: ListedMaterial) => x.material.stockQuantity.Some? && x.material.stockQuantity.value <= high
  }

  /** A bound box: empty means no bound, otherwise `float` of its text. */
  function Bound(text: string): Option<real> {
    if text == [] then None else ParseFloat(text)
  }

  /** Both boxes hold numbers or are empty, so `float` raises no ValueError. */
  predicate BoundsParse(minText: string, maxText: string) {
    (minText == [] || ParseFloat(minText).Some?) && (maxText == [] || ParseFloat(maxText).Some?)
  }

  /** Some material of `items` has no stock quantity. */
  predicate SomeStockNull(items: seq<ListedMaterial>) {
    exists i :: 0 <= i < |items| && items[i].material.stockQuantity.None?
  }

  /** The name and type filters. */
  function ByNameAndType(items: seq<ListedMaterial>, nameText: string, typeText: string): seq<ListedMaterial> {
    var key := NameKey(nameText);
    var byName := if key != [] then Filter(ByName(key), items) else items;
    if typeText != [] then Filter(ByType(typeText), byName) else byName
  }

  /** `filter_materials`: the materials to show, in the service's order, or `None`
      when a comparison with a null stock quantity raises. */
  function FilterMaterials(items: seq<ListedMaterial>, nameText: string, typeText: string,
                           minText: string, maxText: string): Option<seq<ListedMaterial>> {
    var byType := ByNameAndType(items, nameText, typeText);
    if !BoundsParse(minText, maxText) then Some(byType)
    else
      var low, high := Bound(minText), Bound(maxText);
      if low.Some? && SomeStockNull(byType) then None
      else
        var byLow := if low.Some? then Filter(AtLeast(low.value), byType) else byType;
        if high.Some? && SomeStockNull(byLow) then None
        else Some(if high.Some? then Filter(AtMost(high.value), byLow) else byLow)
  }

  /** The bounds that apply: both boxes as typed when both parse, neither otherwise. */
  function ActiveBounds(minText: string, maxText: string): (Option<real>, Option<real>) {
    if BoundsParse(minText, maxText) then (Bound(minText), Bound(maxText)) else (None, None)
  }

  /** Everything one material must satisfy to be shown. */
  predicate Shown(x: ListedMaterial, nameText: string, typeText: string, minText: string, maxText: string) {
    var bounds := ActiveBounds(minText, maxText);
    NameMatches(x, NameKey(nameText)) && TypeMatches(x, typeText) && InRange(x, bounds.0, bounds.1)
  }

  /** The name and type filters keep exactly what matches both. */
  lemma ByNameAndTypeMeaning(items: seq<ListedMaterial>, nameText: string, typeText: string)
    ensures var key := NameKey(nameText);
      ByNameAndType(items, nameText, typeText)
        == Filter((x: ListedMaterial) => NameMatches(x, key) && TypeMatches(x, typeText), items)
  {
    var key := NameKey(nameText);
    var both := (x: ListedMaterial) => NameMatches(x, key) && TypeMatches(x, typeText);
    var name := (x: ListedMaterial) => NameMatches(x, key);
    var kind := (x: ListedMaterial) => TypeMatches(x, typeText);
    var byName := if key != [] then Filter(ByName(key), items) else items;
    if key != [] {
      assert forall x :: ByName(key)(x) == name(x);
      FilterSame(ByName(key), name, items);
    } else {
      FilterAll(name, items);
    }
    assert byName == Filter(name, items);
    if typeText != [] {
      assert forall x :: ByType(typeText)(x) == kind(x);
      FilterSame(ByType(typeText), kind, byName);
    } else {
      FilterAll(kind, byName);
    }
    FilterTwice(name, kind, both, items);
  }

  /** Two filters with predicates that agree everywhere keep the same elements. */
  lemma {:induction false} FilterSame<T>(p: T -> bool, q: T -> bool, s: seq<T>)
    requires forall x :: p(x) == q(x)
    ensures Filter(p, s) == Filter(q, s)
  {
    if s != [] {
      FilterSame(p, q, s[1..]);
    }
  }

  /** When a list is produced it is the input with exactly the materials that pass
      every active filter, in the input's order. */
  lemma FilterMaterialsReference(items: seq<ListedMaterial>, nameText: string, typeText: string,
                                 minText: string, maxText: string)
    requires FilterMaterials(items, nameText, typeText, minText, maxText).Some?
    ensures FilterMaterials(items, nameText, typeText, minText, maxText).value
      == Filter((x: ListedMaterial) => Shown(x, nameText, typeText, minText, maxText), items)
  {
    var key := NameKey(nameText);
    var shown := (x: ListedMaterial) => Shown(x, nameText, typeText, minText, maxText);
    var matches := (x: ListedMaterial) => NameMatches(x, key) && TypeMatches(x, typeText);
    ByNameAndTypeMeaning(items, nameText, typeText);
    var byType := ByNameAndType(items, nameText, typeText);
    var bounds := ActiveBounds(minText, maxText);
    var ranged := (x: ListedMaterial) => InRange(x, bounds.0, bounds.1);
    FilterTwice(matches, ranged, shown, items);
    var low, high := Bound(minText), Bound(maxText);
    if !BoundsParse(minText, maxText) {
      FilterAll(ranged, byType);
    } else {
      var lowOnly := (x: ListedMaterial) => InRange(x, low, None);
      var highOnly := (x: ListedMaterial) => InRange(x, None, high);
      var byLow := if low.Some? then Filter(AtLeast(low.value), byType) else byType;
      if low.Some? {
        FilterSame(AtLeast(low.value), lowOnly, byType);
      } else {
        FilterAll(lowOnly, byType);
      }
      if high.Some? {
        FilterSame(AtMost(high.value), highOnly, byLow);
      } else {
        FilterAll(highOnly, byLow);
      }
      FilterTwice(lowOnly, highOnly, ranged, byType);
    }
  }

  /** The list shown keeps the input's order and adds nothing. */
  lemma FilterMaterialsSubsequence(items: seq<ListedMaterial>, nameText: string, typeText: string,
                                   minText: string, maxText: string)
    requires FilterMaterials(items, nameText, typeText, minText, maxText).Some?
    ensures IsSubsequence(FilterMaterials(items, nameText, typeText, minText, maxText).value, items)
  {
    FilterMaterialsReference(items, nameText, typeText, minText, maxText);
    FilterIsSubsequence((x: ListedMaterial) => Shown(x, nameText, typeText, minText, maxText), items);
  }

  /** A material is shown if and only if it is in the input, its lower-cased name
      contains the trimmed, lower-cased name box (when that is not empty), its category
      is named exactly as the type box says (when that is not empty), and, when both
      bound boxes parse, its stock quantity lies within each bound that is set, bounds
      included. */
  lemma FilterMaterialsMembership(items: seq<ListedMaterial>, nameText: string, typeText: string,
                                  minText: string, maxText: string, x: ListedMaterial)
    requires FilterMaterials(items, nameText, typeText, minText, maxText).Some?
    ensures var key := Lower(Strip(nameText));
      x in FilterMaterials(items, nameText, typeText, minText, maxText).value <==>
        && x in items
        && (key == [] || Contains(Lower(x.material.name), key))
        && (typeText == [] || x.typeName == typeText)
        && (BoundsParse(minText, maxText) && minText != [] ==>
              x.material.stockQuantity.Some? && x.material.stockQuantity.value >= ParseFloat(minText).value)
        && (BoundsParse(minText, maxText) && maxText != [] ==>
              x.material.stockQuantity.Some? && x.material.stockQuantity.value <= ParseFloat(maxText).value)
  {
    FilterMaterialsReference(items, nameText, typeText, minText, maxText);
  }

  /** A bound box that does not hold a number switches off both bounds: the list is
      then filtered by name and type only. */
  lemma UnparsableBoundIgnored(items: seq<ListedMaterial>, nameText: string, typeText: string,
                               minText: string, maxText: string)
    requires (minText != [] && ParseFloat(minText).None?) || (maxText != [] && ParseFloat(maxText).None?)
    ensures var key := NameKey(nameText);
      FilterMaterials(items, nameText, typeText, minText, maxText)
        == Some(Filter((x: ListedMaterial) => NameMatches(x, key) && TypeMatches(x, typeText), items))
  {
    ByNameAndTypeMeaning(items, nameText, typeText);
  }

  /** With every box empty the whole input is shown. */
  lemma EmptyFiltersShowAll(items: seq<ListedMaterial>)
    ensures FilterMaterials(items, "", "", "", "") == Some(items)
  {
    assert NameKey("") == [] by {
      StripUnpadded("");
    }
  }

  /** No list is produced exactly when the bound boxes parse, at least one of them is
      set, and some material that passes the name and type filters has a null stock
      quantity. */
  lemma FilterMaterialsFails(items: seq<ListedMaterial>, nameText: string, typeText: string,
                             minText: string, maxText: string)
    ensures var key := NameKey(nameText);
      FilterMaterials(items, nameText, typeText, minText, maxText).None? <==>
        && BoundsParse(minText, maxText)
        && (minText != [] || maxText != [])
        && exists x :: x in items && NameMatches(x, key) && TypeMatches(x, typeText) && x.material.stockQuantity.None?
  {
    FailsOnMatches(items, nameText, typeText, minText, maxText);
    NullAmongMatches(items, nameText, typeText);
  }

  /** The failure depends only on the materials that pass name and type: a lower bound
      that passes them all leaves no null stock behind for the upper one. */
  lemma FailsOnMatches(items: seq<ListedMaterial>, nameText: string, typeText: string,
                       minText: string, maxText: string)
    ensures FilterMaterials(items, nameText, typeText, minText, maxText).None? <==>
      && BoundsParse(minText, maxText)
      && (minText != [] || maxText != [])
      && SomeStockNull(ByNameAndType(items, nameText, typeText))
  {
    var byType := ByNameAndType(items, nameText, typeText);
    var low := Bound(minText);
    if BoundsParse(minText, maxText) && low.Some? && !SomeStockNull(byType) {
      var byLow := Filter(AtLeast(low.value), byType);
      assert !SomeStockNull(byLow) by {
        assert forall i :: 0 <= i < |byLow| ==> AtLeast(low.value)(byLow[i]);
      }
    }
  }

  /** A material with a null stock quantity passes name and type exactly when one of
      the materials they keep has it. */
  lemma NullAmongMatches(items: seq<ListedMaterial>, nameText: string, typeText: string)
    ensures var key := NameKey(nameText);
      SomeStockNull(ByNameAndType(items, nameText, typeText)) <==>
        exists x :: x in items && NameMatches(x, key) && TypeMatches(x, typeText) && x.material.stockQuantity.None?
  {
    var key := NameKey(nameText);
    ByNameAndTypeMeaning(items, nameText, typeText);
    var byType := ByNameAndType(items, nameText, typeText);
    if exists x :: x in items && NameMatches(x, key) && TypeMatches(x, typeText) && x.material.stockQuantity.None? {
      var x :| x in items && NameMatches(x, key) && TypeMatches(x, typeText) && x.material.stockQuantity.None?;
      assert x in byType;
      var i :| 0 <= i < |byType| && byType[i] == x;
    }
  }
}
