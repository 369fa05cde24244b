/**
 * The category record's runtime type guard and the default category names
 * (lib/models/Category.ts). A category arrives from JSON, so the guard is
 * modelled over a small universe of JavaScript values.
 */
module CategoryModel {
  import opened Lists

  /** JavaScript values as `JSON.parse` and the guard can meet them. */
  datatype JsValue =
    | Undefined
    | Null
    | Bool(b: bool)
    | Number(n: int)
    | Str(s: string)
    | Array(items: seq<JsValue>)
    | Object(fields: map<string, JsValue>)

  /** JavaScript truthiness. */
  predicate Truthy(v: JsValue) {
    match v
    case Undefined => false
    case Null => false
    case Bool(b) => b
    case Number(n) => n != 0
    case Str(s) => s != ""
    case Array(_) => true
    case Object(_) => true
  }

  /** The `typeof` operator (`typeof null` is "object"). */
  function TypeOf(v: JsValue): string {
    match v
    case Undefined => "undefined"
    case Null => "object"
    case Bool(_) => "boolean"
    case Number(_) => "number"
    case Str(_) => "string"
    case Array(_) => "object"
    case Object(_) => "object"
  }

  /** Property read `v.key`; a missing property reads as `undefined`. */
  function Property(v: JsValue, key: string): JsValue {
    if v.Object? && key in v.fields then v.fields[key] else Undefined
  }

  predicate HasStringField(v: JsValue, key: string) {
    v.Object? && key in v.fields && v.fields[key].Str?
  }

  /**
   * `isCategory(obj)`: a truthy object whose `_id`, `name` and `createdAt`
   * are strings. Exactly the objects carrying those three string fields pass;
   * null, undefined, primitives and arrays do not.
   */
  predicate IsCategory(v: JsValue)
    ensures IsCategory(v) <==>
      HasStringField(v, "_id") && HasStringField(v, "name") && HasStringField(v, "createdAt")
  {
    Truthy(v) && TypeOf(v) == "object" &&
    TypeOf(Property(v, "_id")) == "string" &&
    TypeOf(Property(v, "name")) == "string" &&
    TypeOf(Property(v, "createdAt")) == "string"
  }

  /** Fields other than `_id`, `name` and `createdAt` never change the verdict. */
  lemma IsCategoryIgnoresExtraFields(m: map<string, JsValue>, m': map<string, JsValue>)
    requires forall k :: k in {"_id", "name", "createdAt"} ==>
               (k in m <==> k in m') && (k in m ==> m[k] == m'[k])
    ensures IsCategory(Object(m)) == IsCategory(Object(m'))
  {
    assert "_id" in {"_id", "name", "createdAt"};
    assert "name" in {"_id", "name", "createdAt"};
    assert "createdAt" in {"_id", "name", "createdAt"};
  }

  /** A category as the categories endpoint serialises it passes the guard. */
  lemma SerialisedCategoryIsCategory(id: string, name: string, createdAt: string, extra: map<string, JsValue>)
    ensures IsCategory(Object(extra["_id" := Str(id)]["name" := Str(name)]["createdAt" := Str(createdAt)]))
  {
  }

  const DefaultCategories: seq<string> := [
    "Electronics",
    "Clothing",
    "Home & Garden",
    "Sports & Outdoors",
    "Books",
    "Health & Beauty",
    "Toys & Games",
    "Automotive",
    "Food & Beverages",
    "Office Supplies"
  ]

  /** Ten names, pairwise distinct, none holding the `,` the query string uses as separator. */
  lemma DefaultCategoriesWellFormed()
    ensures |DefaultCategories| == 10
    ensures NoDuplicates(DefaultCategories)
    ensures forall i :: 0 <= i < |DefaultCategories| ==> ',' !in DefaultCategories[i]
  {
    DefaultCategoriesTell();
  }

  /** Any two default names differ in length or in their first letter. */
  lemma DefaultCategoriesTell()
    ensures forall i, j :: 0 <= i < j < |DefaultCategories| ==>
      |DefaultCategories[i]| != |DefaultCategories[j]| || DefaultCategories[i][0] != DefaultCategories[j][0]
  {
  }
}
