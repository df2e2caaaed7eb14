/** The relational store the loaders and the material service read and write. */
module Store {
  import opened Models

  /** One connection to the store. Each table is a field that the operations reassign
      when they commit; a transaction that fails assigns nothing. */
  class Database {
    var materialTypes: seq<MaterialType>
    var materials: seq<Material>
    var productTypes: seq<ProductType>
    var products: seq<Product>
    var links: seq<Link>

    /** The tables as one value. */
    function Snapshot(): Tables
      reads this
    {
      Tables(materialTypes, materials, productTypes, products, links)
    }

    /** The store is consistent: every operation that changes it keeps this. */
    ghost predicate Valid()
      reads this
    {
      Consistent(Snapshot())
    }

    /** A new store file after `create_tables()`: every table exists and is empty. */
    constructor ()
      ensures Valid() && Snapshot() == EmptyTables
    {
      materialTypes, materials, productTypes, products, links := [], [], [], [], [];
    }
  }
}
