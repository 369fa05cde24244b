/**
 * The two document collections the application keeps (products and
 * categories) and the part of the database driver's behaviour the routes
 * depend on: query matching, sorting by `createdAt` descending, skip/limit
 * windows, `findOne`, `countDocuments`, `insertOne`, `insertMany` and
 * `createIndex`. The record shapes follow lib/models/Product.ts and
 * lib/models/Category.ts; timestamps are integers and `_id` is a number the
 * store hands out in insertion order.
 */
module Db {
  import opened Results
  import opened Strings

  datatype Product = Product(
    id: nat,
    name: string,
    description: string,
    quantity: int,
    categories: seq<string>,
    createdAt: int,
    updatedAt: int)

  datatype Category = Category(id: nat, name: string, createdAt: int)

  datatype Collection = ProductsCollection | CategoriesCollection
  datatype IndexKey = NameAscending | CategoriesAscending | CreatedAtDescending
  datatype Index = Index(collection: Collection, key: IndexKey, unique: bool)

  // ---- queries ----

  /** A `$regex` condition on `name` with the case-insensitive option. */
  datatype NamePattern =
    | Substring(text: string)  // the bare pattern: matches anywhere in the name
    | WholeName(text: string)  // the pattern anchored with `^` and `$`

  /** A query document: an optional name condition and an optional `$in` on `categories`. */
  datatype Query = Query(name: Option<NamePattern>, categoriesIn: Option<seq<string>>)

  predicate NameMatches(pattern: NamePattern, name: string) {
    match pattern
    case Substring(t) => Contains(Lower(name), Lower(t))
    case WholeName(t) => Lower(name) == Lower(t)
  }

  /** `$in` on an array field: some element of the document's array is listed. */
  predicate SharesCategory(listed: seq<string>, categories: seq<string>) {
    exists c :: c in listed && c in categories
  }

  /** Both conditions of the query hold; an absent condition holds trivially. */
  predicate Matches(q: Query, p: Product) {
    (q.name.None? || NameMatches(q.name.value, p.name)) &&
    (q.categoriesIn.None? || SharesCategory(q.categoriesIn.value, p.categories))
  }

  /** The documents matching `q`, in store order. */
  function Select(ps: seq<Product>, q: Query): (r: seq<Product>)
    ensures |r| <= |ps|
    ensures forall p :: p in r <==> p in ps && Matches(q, p)
    ensures forall p :: multiset(r)[p] == if Matches(q, p) then multiset(ps)[p] else 0
  {
    if ps == [] then []
    else
      assert ps == [ps[0]] + ps[1..];
      if Matches(q, ps[0]) then [ps[0]] + Select(ps[1..], q)
      else Select(ps[1..], q)
  }

  /** The first document matching `q` in store order (`findOne` without a sort). */
  function FindFirst(ps: seq<Product>, q: Query): (r: Option<Product>)
    ensures r.Some? <==> exists p :: p in ps && Matches(q, p)
    ensures r.Some? ==> r.value in ps && Matches(q, r.value)
  {
    if ps == [] then None
    else if Matches(q, ps[0]) then Some(ps[0])
    else FindFirst(ps[1..], q)
  }

  function FindById(ps: seq<Product>, id: nat): (r: Option<Product>)
    ensures r.Some? ==> r.value in ps && r.value.id == id
    ensures (exists p :: p in ps && p.id == id) ==> r.Some?
  {
    if ps == [] then None
    else if ps[0].id == id then Some(ps[0])
    else FindById(ps[1..], id)
  }

  // ---- sort({ createdAt: -1 }) ----

  predicate NewestFirst(ps: seq<Product>) {
    forall i, j :: 0 <= i < j < |ps| ==> ps[i].createdAt >= ps[j].createdAt
  }

  /** Places `p` before the first document that is not newer than it. */
  function InsertByAge(p: Product, ps: seq<Product>): (r: seq<Product>)
    requires NewestFirst(ps)
    ensures |r| == |ps| + 1
    ensures NewestFirst(r)
    ensures multiset(r) == multiset(ps) + multiset{p}
  {
    if ps == [] then [p]
    else if ps[0].createdAt <= p.createdAt then
      NewerHead(p, ps);
      [p] + ps
    else
      var rest := InsertByAge(p, ps[1..]);
      assert ps == [ps[0]] + ps[1..];
      NoNewerThanHead(ps[0], rest, ps[1..], p);
      NewerHead(ps[0], rest);
      [ps[0]] + rest
  }

  /** Putting a document in front of ordered ones it is not older than keeps the order. */
  lemma NewerHead(x: Product, ps: seq<Product>)
    requires NewestFirst(ps)
    requires forall k :: 0 <= k < |ps| ==> ps[k].createdAt <= x.createdAt
    ensures NewestFirst([x] + ps)
  {
    var r := [x] + ps;
    forall i, j | 0 <= i < j < |r|
      ensures r[i].createdAt >= r[j].createdAt
    {
      assert r[j] == ps[j - 1];
      if i > 0 {
        assert r[i] == ps[i - 1];
      }
    }
  }

  /** Every element of a permutation of `ps + [p]` is no newer than `x` when `p` and all of `ps` are not. */
  lemma NoNewerThanHead(x: Product, rest: seq<Product>, ps: seq<Product>, p: Product)
    requires NewestFirst([x] + ps) && p.createdAt < x.createdAt
    requires multiset(rest) == multiset(ps) + multiset{p}
    ensures forall k :: 0 <= k < |rest| ==> rest[k].createdAt <= x.createdAt
  {
    forall k | 0 <= k < |rest|
      ensures rest[k].createdAt <= x.createdAt
    {
      assert rest[k] in multiset(rest);
      if rest[k] != p {
        assert rest[k] in multiset(ps);
        assert rest[k] in ps;
        var i :| 0 <= i < |ps| && ps[i] == rest[k];
        assert ([x] + ps)[0] == x && ([x] + ps)[i + 1] == ps[i];
      }
    }
  }

  /**
   * A stable sort on `createdAt`, newest first: the result is ordered and is
   * a permutation of the input.
   */
  function SortNewestFirst(ps: seq<Product>): (r: seq<Product>)
    ensures |r| == |ps|
    ensures NewestFirst(r)
    ensures multiset(r) == multiset(ps)
  {
    if ps == [] then []
    else
      assert ps == [ps[0]] + ps[1..];
      InsertByAge(ps[0], SortNewestFirst(ps[1..]))
  }

  /** `.skip(skip).limit(limit)` on an ordered result, for a positive limit. */
  function Window(ps: seq<Product>, skip: nat, limit: nat): (r: seq<Product>)
    requires limit >= 1
    ensures |r| == if skip >= |ps| then 0 else if |ps| - skip < limit then |ps| - skip else limit
    ensures forall k :: 0 <= k < |r| ==> r[k] == ps[skip + k]
  {
    if skip >= |ps| then []
    else if |ps| - skip < limit then ps[skip..]
    else ps[skip..skip + limit]
  }

  /** A window of a newest-first result is newest first and holds only documents of that result. */
  lemma WindowOfNewestFirst(ps: seq<Product>, skip: nat, limit: nat)
    requires NewestFirst(ps) && limit >= 1
    ensures NewestFirst(Window(ps, skip, limit))
    ensures forall p :: p in Window(ps, skip, limit) ==> p in ps
  {
    var r := Window(ps, skip, limit);
    forall p | p in r
      ensures p in ps
    {
      var k :| 0 <= k < |r| && r[k] == p;
      assert ps[skip + k] == p;
    }
  }

  // ---- the whole store ----

  datatype State = State(
    products: seq<Product>,
    categories: seq<Category>,
    indexes: set<Index>,
    nextId: nat)

  /** No two products share a name once case is ignored. */
  predicate NamesUniqueIgnoringCase(ps: seq<Product>) {
    forall i, j :: 0 <= i < j < |ps| ==> Lower(ps[i].name) != Lower(ps[j].name)
  }

  predicate ProductIdsOrdered(ps: seq<Product>, nextId: nat) {
    (forall i, j :: 0 <= i < j < |ps| ==> ps[i].id < ps[j].id) &&
    (forall i :: 0 <= i < |ps| ==> ps[i].id < nextId)
  }

  predicate CategoryIdsOrdered(cs: seq<Category>, nextId: nat) {
    (forall i, j :: 0 <= i < j < |cs| ==> cs[i].id < cs[j].id) &&
    (forall i :: 0 <= i < |cs| ==> cs[i].id < nextId)
  }

  predicate CategoryNamesUnique(cs: seq<Category>) {
    forall i, j :: 0 <= i < j < |cs| ==> cs[i].name != cs[j].name
  }

  /**
   * The store invariant: ids are handed out in insertion order and never
   * reused, product names are unique ignoring case and category names are
   * unique.
   */
  predicate ValidState(s: State) {
    ProductIdsOrdered(s.products, s.nextId) &&
    CategoryIdsOrdered(s.categories, s.nextId) &&
    NamesUniqueIgnoringCase(s.products) &&
    CategoryNamesUnique(s.categories)
  }

  /** The documents of one `insertMany`, given consecutive ids from `first`. */
  function ProductsWithIds(docs: seq<Product>, first: nat): seq<Product> {
    seq(|docs|, k requires 0 <= k < |docs| => docs[k].(id := first + k))
  }

  function CategoriesWithIds(docs: seq<Category>, first: nat): seq<Category> {
    seq(|docs|, k requires 0 <= k < |docs| => docs[k].(id := first + k))
  }

  /** The database handle: both collections and their indexes, updated in place. */
  class Database {
    var products: seq<Product>
    var categories: seq<Category>
    var indexes: set<Index>
    var nextId: nat

    constructor ()
      ensures Snapshot() == State([], [], {}, 0)
      ensures Valid()
    {
      products, categories, indexes, nextId := [], [], {}, 0;
    }

    function Snapshot(): State
      reads this
    {
      State(products, categories, indexes, nextId)
    }

    predicate Valid()
      reads this
    {
      ValidState(Snapshot())
    }

    /** `countDocuments(q)` on the products. */
    function CountProducts(q: Query): nat
      reads this
    {
      |Select(products, q)|
    }

    /** `find(q).sort({ createdAt: -1 }).skip(skip).limit(limit)` on the products. */
    function FindProducts(q: Query, skip: nat, limit: nat): seq<Product>
      requires limit >= 1
      reads this
    {
      Window(SortNewestFirst(Select(products, q)), skip, limit)
    }

    /** `findOne(q)` on the products. */
    function FindOneProduct(q: Query): Option<Product>
      reads this
    {
      FindFirst(products, q)
    }

    /** `findOne({ _id: id })` on the products. */
    function FindProductById(id: nat): Option<Product>
      reads this
    {
      FindById(products, id)
    }

    /** `countDocuments()` on the categories. */
    function CountCategories(): nat
      reads this
    {
      |categories|
    }

    /** `insertOne(doc)`: the store gives the document the next id and appends it. */
    method InsertOneProduct(doc: Product) returns (insertedId: nat)
      modifies this
      ensures insertedId == old(nextId)
      ensures products == old(products) + [doc.(id := insertedId)]
      ensures categories == old(categories) && indexes == old(indexes)
      ensures nextId == old(nextId) + 1
    {
      insertedId := nextId;
      products := products + [doc.(id := insertedId)];
      nextId := nextId + 1;
    }

    /** `insertMany(docs)` into the products. */
    method InsertManyProducts(docs: seq<Product>)
      modifies this
      ensures products == old(products) + ProductsWithIds(docs, old(nextId))
      ensures categories == old(categories) && indexes == old(indexes)
      ensures nextId == old(nextId) + |docs|
    {
      products := products + ProductsWithIds(docs, nextId);
      nextId := nextId + |docs|;
    }

    /** `insertMany(docs)` into the categories. */
    method InsertManyCategories(docs: seq<Category>)
      modifies this
      ensures categories == old(categories) + CategoriesWithIds(docs, old(nextId))
      ensures products == old(products) && indexes == old(indexes)
      ensures nextId == old(nextId) + |docs|
    {
      categories := categories + CategoriesWithIds(docs, nextId);
      nextId := nextId + |docs|;
    }

    /** `createIndex(spec)`: creating an index that exists already changes nothing. */
    method CreateIndex(index: Index)
      modifies this
      ensures indexes == old(indexes) + {index}
      ensures products == old(products) && categories == old(categories) && nextId == old(nextId)
    {
      indexes := indexes + {index};
    }
  }
}
