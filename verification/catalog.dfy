/**
 * The product listings the pages load (src/services/productService.ts's `Product`),
 * decoded from the JSON body, and the helpers the home and search pages share.
 */
module Catalog {
  import opened Wrappers
  import opened Text
  import opened Js

  /**
   * The fields the pages read. Strings and numbers that are missing (or of another
   * JSON type) are `None`; `kind` is the `type` field.
   */
  datatype Product = Product(
    id: Option<string>, name: Option<string>, brand: Option<string>, kind: Option<string>,
    location: Option<string>, status: Option<string>,
    price: Option<int>, year: Option<int>, mileage: Option<int>)

  function AsInt(v: Value): Option<int> {
    match v
    case Some(JNum(n)) => Some(n)
    case _ => None
  }

  function ProductOf(j: Json): Product {
    var v := Some(j);
    Product(
      AsString(Get(v, "id")), AsString(Get(v, "name")), AsString(Get(v, "brand")), AsString(Get(v, "type")),
      AsString(Get(v, "location")), AsString(Get(v, "status")),
      AsInt(Get(v, "price")), AsInt(Get(v, "year")), AsInt(Get(v, "mileage")))
  }

  /**
   * The list a products response carries: the body when it is an array, its `items`
   * when that is an array, and nothing otherwise.
   */
  function ListItems(data: Value): (r: seq<Json>)
    ensures data.Some? && data.value.JArr? ==> r == data.value.items
    ensures !(data.Some? && data.value.JArr?) && Get(data, "items").Some? && Get(data, "items").value.JArr?
      ==> r == Get(data, "items").value.items
    ensures r != [] ==> (data.Some? && data.value.JArr?) || Get(data, "items").Some?
  {
    match data
    case Some(JArr(items)) => items
    case _ =>
      match Get(data, "items")
      case Some(JArr(items)) => items
      case _ => []
  }

  /**
   * Both response shapes the backend may use, a bare array or a page object such as
   * `{ total, items, ... }`, give the same list: the one under the first `items` field.
   */
  lemma ListShapesAgree(fields: seq<(string, Json)>, items: seq<Json>, i: nat)
    requires i < |fields| && fields[i] == ("items", JArr(items))
    requires forall k :: 0 <= k < i ==> fields[k].0 != "items"
    ensures ListItems(Some(JObj(fields))) == ListItems(Some(JArr(items))) == items
  {
    LookupFirst(fields, "items", i);
  }

  /** An array `items` inside an array body is not looked at; a non-array `items` gives nothing. */
  lemma ListItemsNeedsArray(data: Value)
    requires !(data.Some? && data.value.JArr?)
    requires !(Get(data, "items").Some? && Get(data, "items").value.JArr?)
    ensures ListItems(data) == []
  {
  }

  function Products(data: Value): (r: seq<Product>)
    ensures |r| == |ListItems(data)|
    ensures forall i :: 0 <= i < |r| ==> r[i] == ProductOf(ListItems(data)[i])
  {
    var items := ListItems(data);
    seq(|items|, i requires 0 <= i < |items| => ProductOf(items[i]))
  }

  const Published: string := "published"
  const Available: string := "available"

  /** `(p.status || "").toString().toLowerCase()` is `published` or `available`. */
  predicate IsFeatured(p: Product) {
    var s := Lower(p.status.GetOr(""));
    s == Published || s == Available
  }

  /** Whether a listing is featured does not depend on how its status is capitalised. */
  lemma FeaturedIgnoresCase(p: Product, s: string)
    ensures IsFeatured(p.(status := Some(Upper(s)))) == IsFeatured(p.(status := Some(s)))
    ensures IsFeatured(p.(status := Some(Lower(s)))) == IsFeatured(p.(status := Some(s)))
  {
    LowerUpper(s);
  }

  /** A listing whose status is missing or empty is not featured. */
  lemma NoStatusNotFeatured(p: Product)
    requires p.status.None? || p.status == Some("")
    ensures !IsFeatured(p)
  {
  }
}
