/**
 * `POST /api/seed/products` (app/api/seed/products/route.ts): when the
 * products collection is empty, insert the default products, each with its
 * categories narrowed to the names present in the categories collection;
 * otherwise do nothing. The default products are the constants of
 * lib/data/defaultProducts.ts.
 */
module SeedProductsRoute {
  import opened Results
  import opened Strings
  import opened Lists
  import opened Db
  import opened Http
  import opened ProductValidation
  import opened CategoryModel

  const DefaultProducts: seq<ProductBody> := [
    ProductBody(
      "Apple iPhone 14 Pro Max",
      "6.7-inch Super Retina XDR display, A16 Bionic chip, 48MP Pro camera system, Ceramic Shield",
      10,
      ["Electronics", "Smartphones"]),
    ProductBody(
      "Nike Air Max 270 React",
      "Comfortable running shoes with React foam cushioning and Air Max 270 unit",
      20,
      ["Clothing", "Shoes"]),
    ProductBody(
      "Samsung 55-inch Smart TV",
      "4K UHD resolution, Smart TV with Tizen OS, HDR10+ support",
      5,
      ["Electronics", "Home & Garden"])
  ]

  const AlreadySeeded := Response(200, Message("Products already seeded"))

  /** `categories.map(cat => cat.name)`. */
  function CategoryNames(cs: seq<Category>): seq<string> {
    seq(|cs|, k requires 0 <= k < |cs| => cs[k].name)
  }

  /**
   * `productsToInsert`: each default product with its categories filtered to
   * the existing names and both timestamps set; the store hands out the ids.
   */
  function SeedDocs(defaults: seq<ProductBody>, names: seq<string>, now: int): seq<Product> {
    seq(|defaults|, k requires 0 <= k < |defaults| =>
      Product(0, defaults[k].name, defaults[k].description, defaults[k].quantity,
              KeepIn(defaults[k].categories, names), now, now))
  }

  /** What the handler does to the store and answers. */
  function SeedProductsSpec(s: State, now: int): (State, Response) {
    if |s.products| > 0 then (s, AlreadySeeded)
    else
      var docs := SeedDocs(DefaultProducts, CategoryNames(s.categories), now);
      (s.(products := s.products + ProductsWithIds(docs, s.nextId), nextId := s.nextId + |docs|),
       Response(200, SeedReport("Products seeded successfully", |docs|)))
  }

  /** The handler: count, read the category names, `insertMany`. */
  method SeedProducts(db: Database, now: int) returns (resp: Response)
    requires db.Valid()
    modifies db
    ensures db.Valid()
    ensures db.Snapshot() == SeedProductsSpec(old(db.Snapshot()), now).0
    ensures resp == SeedProductsSpec(old(db.Snapshot()), now).1
  {
    SeedProductsKeepsValid(db.Snapshot(), now);
    var everything := Query(None, None);
    var existing := db.CountProducts(everything);
    if db.products != [] {
      assert db.products[0] in Select(db.products, everything);
    }
    if existing > 0 {
      resp := AlreadySeeded;
      return;
    }
    var names := CategoryNames(db.categories);
    var docs := SeedDocs(DefaultProducts, names, now);
    db.InsertManyProducts(docs);
    resp := Response(200, SeedReport("Products seeded successfully", |docs|));
  }

  // ---- properties ----

  /** The guard: the store changes exactly when the products collection is empty. Both paths answer 200. */
  lemma SeedProductsGuard(s: State, now: int)
    ensures SeedProductsSpec(s, now).0 == s <==> |s.products| > 0
    ensures SeedProductsSpec(s, now).1.status == 200
  {
    if |s.products| == 0 {
      assert |SeedProductsSpec(s, now).0.products| == 3;
    }
  }

  /**
   * A fresh seed appends one record per default product, with consecutive
   * ids: name, description and quantity copied, categories narrowed to
   * existing names in their original order, both timestamps the request
   * time. It reports how many records it inserted; nothing else changes.
   */
  lemma SeedProductsInsertsDefaults(s: State, now: int)
    requires |s.products| == 0
    ensures var (s', r) := SeedProductsSpec(s, now);
      && |s'.products| == |DefaultProducts|
      && (forall k :: 0 <= k < |s'.products| ==>
            var d, p := DefaultProducts[k], s'.products[k];
            && p.id == s.nextId + k
            && p.name == d.name && p.description == d.description && p.quantity == d.quantity
            && p.categories == KeepIn(d.categories, CategoryNames(s.categories))
            && p.createdAt == now && p.updatedAt == now)
      && s'.categories == s.categories && s'.indexes == s.indexes
      && r.payload == SeedReport("Products seeded successfully", |s'.products|)
  {
  }

  /** A second seed after any first one changes nothing and answers "already seeded". */
  lemma SeedProductsIdempotent(s: State, now1: int, now2: int)
    ensures var s1 := SeedProductsSpec(s, now1).0;
      SeedProductsSpec(s1, now2) == (s1, AlreadySeeded)
  {
    var s1 := SeedProductsSpec(s, now1).0;
    if |s.products| == 0 {
      assert |s1.products| == 3;
    }
  }

  /**
   * Over the default categories, "Smartphones" and "Shoes" are dropped and
   * the other names kept in order.
   */
  lemma SeedWithDefaultCategories(s: State, now: int)
    requires |s.products| == 0 && CategoryNames(s.categories) == DefaultCategories
    ensures var ps := SeedProductsSpec(s, now).0.products;
      && ps[0].categories == ["Electronics"]
      && ps[1].categories == ["Clothing"]
      && ps[2].categories == ["Electronics", "Home & Garden"]
  {
    var names := CategoryNames(s.categories);
    DroppedNames();
    KeepInPair("Electronics", "Smartphones", names);
    KeepInPair("Clothing", "Shoes", names);
    KeepInPair("Electronics", "Home & Garden", names);
    SeededCategories(s, now);
  }

  /** The seeded category lists are the default ones filtered against the existing names. */
  lemma SeededCategories(s: State, now: int)
    requires |s.products| == 0
    ensures var ps := SeedProductsSpec(s, now).0.products;
      && |ps| == 3
      && ps[0].categories == KeepIn(["Electronics", "Smartphones"], CategoryNames(s.categories))
      && ps[1].categories == KeepIn(["Clothing", "Shoes"], CategoryNames(s.categories))
      && ps[2].categories == KeepIn(["Electronics", "Home & Garden"], CategoryNames(s.categories))
  {
    SeedProductsInsertsDefaults(s, now);
  }

  lemma DroppedNames()
    ensures "Smartphones" !in DefaultCategories && "Shoes" !in DefaultCategories
    ensures "Electronics" in DefaultCategories && "Clothing" in DefaultCategories
    ensures "Home & Garden" in DefaultCategories
  {
    assert DefaultCategories[0] == "Electronics";
    assert DefaultCategories[1] == "Clothing";
    assert DefaultCategories[2] == "Home & Garden";
  }

  lemma KeepInPair(x: string, y: string, allowed: seq<string>)
    ensures KeepIn([x, y], allowed) ==
      (if x in allowed then [x] else []) + (if y in allowed then [y] else [])
  {
    assert [x, y][1..] == [y];
    assert [y][1..] == [];
  }

  /**
   * Without categories every seeded product has an empty category list, which
   * the product schema would refuse: the seeder applies no 1-5 check.
   */
  lemma SeedWithoutCategories(s: State, now: int)
    requires |s.products| == 0 && |s.categories| == 0
    ensures var ps := SeedProductsSpec(s, now).0.products;
      forall k :: 0 <= k < |ps| ==>
        ps[k].categories == [] &&
        !AcceptedProduct(ProductBody(ps[k].name, ps[k].description, ps[k].quantity, ps[k].categories))
  {
    var ps := SeedProductsSpec(s, now).0.products;
    SeedProductsInsertsDefaults(s, now);
    assert CategoryNames(s.categories) == [];
    forall k | 0 <= k < |ps|
      ensures ps[k].categories == []
    {
      KeepInNone(DefaultProducts[k].categories);
    }
  }

  /** Seeding keeps the store invariant: the three default names differ even ignoring case. */
  lemma SeedProductsKeepsValid(s: State, now: int)
    requires ValidState(s)
    ensures ValidState(SeedProductsSpec(s, now).0)
  {
    if |s.products| == 0 {
      SeedProductsInsertsDefaults(s, now);
      DefaultNamesDiffer();
      var ps := SeedProductsSpec(s, now).0.products;
      assert forall k :: 0 <= k < 3 ==> ps[k].name == DefaultProducts[k].name;
    }
  }

  /** The three default names start with different letters once lower-cased. */
  lemma DefaultNamesDiffer()
    ensures forall i, j :: 0 <= i < j < |DefaultProducts| ==>
      Lower(DefaultProducts[i].name) != Lower(DefaultProducts[j].name)
  {
    assert Lower(DefaultProducts[0].name)[0] == 'a';
    assert Lower(DefaultProducts[1].name)[0] == 'n';
    assert Lower(DefaultProducts[2].name)[0] == 's';
  }
}
