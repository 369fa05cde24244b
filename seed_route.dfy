/**
 * `POST /api/seed` (app/api/seed/route.ts): when the categories collection
 * is empty, insert one category per default name and create the indexes;
 * otherwise do nothing. The handler is a method over the store, proved
 * equal to `SeedCategoriesSpec`; the properties are lemmas on that function.
 */
module SeedRoute {
  import opened Db
  import opened Http
  import opened Lists
  import opened CategoryModel

  /** The four `createIndex` calls of the seeding path. */
  const SeedIndexes: set<Index> := {
    Index(ProductsCollection, NameAscending, true),
    Index(ProductsCollection, CategoriesAscending, false),
    Index(ProductsCollection, CreatedAtDescending, false),
    Index(CategoriesCollection, NameAscending, true)
  }

  const AlreadySeeded := Response(200, Message("Categories already seeded"))
  const Seeded := Response(201, Message("Database seeded successfully"))

  /** `names.map(name => ({ name, createdAt }))`; the store hands out the ids. */
  function CategoryDocs(names: seq<string>, now: int): seq<Category> {
    seq(|names|, k requires 0 <= k < |names| => Category(0, names[k], now))
  }

  /** What the handler does to the store and answers. */
  function SeedCategoriesSpec(s: State, now: int): (State, Response) {
    if |s.categories| > 0 then (s, AlreadySeeded)
    else
      var docs := CategoryDocs(DefaultCategories, now);
      (s.(categories := s.categories + CategoriesWithIds(docs, s.nextId),
          indexes := s.indexes + SeedIndexes,
          nextId := s.nextId + |docs|),
       Seeded)
  }

  /** The handler: count, then `insertMany` and the four `createIndex` calls. */
  method SeedCategories(db: Database, now: int) returns (resp: Response)
    requires db.Valid()
    modifies db
    ensures db.Valid()
    ensures db.Snapshot() == SeedCategoriesSpec(old(db.Snapshot()), now).0
    ensures resp == SeedCategoriesSpec(old(db.Snapshot()), now).1
  {
    SeedCategoriesKeepsValid(db.Snapshot(), now);
    var existing := db.CountCategories();
    if existing > 0 {
      resp := AlreadySeeded;
      return;
    }
    db.InsertManyCategories(CategoryDocs(DefaultCategories, now));
    db.CreateIndex(Index(ProductsCollection, NameAscending, true));
    db.CreateIndex(Index(ProductsCollection, CategoriesAscending, false));
    db.CreateIndex(Index(ProductsCollection, CreatedAtDescending, false));
    db.CreateIndex(Index(CategoriesCollection, NameAscending, true));
    resp := Seeded;
  }

  // ---- properties ----

  /**
   * The guard: the store changes exactly when the categories collection is
   * empty; an already seeded store answers 200, a fresh seed 201.
   */
  lemma SeedCategoriesGuard(s: State, now: int)
    ensures SeedCategoriesSpec(s, now).0 == s <==> |s.categories| > 0
    ensures SeedCategoriesSpec(s, now).1.status == (if |s.categories| > 0 then 200 else 201)
  {
    DefaultCategoriesWellFormed();
    if |s.categories| == 0 {
      assert |SeedCategoriesSpec(s, now).0.categories| == 10;
    }
  }

  /**
   * A fresh seed stores one category per default name, in list order, each
   * stamped with the request time and given consecutive ids; products are
   * untouched.
   */
  lemma SeedCategoriesInsertsDefaults(s: State, now: int)
    requires |s.categories| == 0
    ensures var s' := SeedCategoriesSpec(s, now).0;
      && |s'.categories| == |DefaultCategories|
      && (forall k :: 0 <= k < |s'.categories| ==>
            s'.categories[k] == Category(s.nextId + k, DefaultCategories[k], now))
      && s'.products == s.products
      && s'.nextId == s.nextId + |DefaultCategories|
  {
  }

  /** Indexes are created on the seeding path only. */
  lemma IndexesOnlyWhenSeeding(s: State, now: int)
    ensures SeedCategoriesSpec(s, now).0.indexes ==
      if |s.categories| == 0 then s.indexes + SeedIndexes else s.indexes
  {
  }

  /** A second seed after any first one changes nothing and answers 200. */
  lemma SeedCategoriesIdempotent(s: State, now1: int, now2: int)
    ensures var s1 := SeedCategoriesSpec(s, now1).0;
      SeedCategoriesSpec(s1, now2) == (s1, AlreadySeeded)
  {
    DefaultCategoriesWellFormed();
    var s1 := SeedCategoriesSpec(s, now1).0;
    assert |s1.categories| >= |s.categories|;
    if |s.categories| == 0 {
      assert |s1.categories| == 10;
    }
  }

  /** From an empty collection, two calls leave exactly the default categories. */
  lemma SeedTwiceLeavesDefaults(s: State, now1: int, now2: int)
    requires |s.categories| == 0
    ensures var s2 := SeedCategoriesSpec(SeedCategoriesSpec(s, now1).0, now2).0;
      && |s2.categories| == |DefaultCategories| == 10
      && forall k :: 0 <= k < |s2.categories| ==> s2.categories[k].name == DefaultCategories[k]
  {
    SeedCategoriesIdempotent(s, now1, now2);
    SeedCategoriesInsertsDefaults(s, now1);
    DefaultCategoriesWellFormed();
  }

  /** Seeding keeps the store invariant: category ids ascend and names are distinct. */
  lemma SeedCategoriesKeepsValid(s: State, now: int)
    requires ValidState(s)
    ensures ValidState(SeedCategoriesSpec(s, now).0)
  {
    if |s.categories| == 0 {
      var s' := SeedCategoriesSpec(s, now).0;
      SeedCategoriesInsertsDefaults(s, now);
      DefaultCategoriesWellFormed();
      assert CategoryIdsOrdered(s'.categories, s'.nextId);
      assert CategoryNamesUnique(s'.categories);
    }
  }
}
