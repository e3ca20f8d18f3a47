/**
 * src/pages/SearchPage.tsx: the filters kept in the query string, the filter
 * pipeline over the loaded listings, and the option lists of the filter panel.
 */
module SearchPage {
  import opened Wrappers
  import opened Text
  import opened Js
  import opened Catalog
  import Seqs

  // ---------------------------------------------------------------------------
  // Filters and query parameters
  // ---------------------------------------------------------------------------

  datatype FilterKey = BrandKey | CategoryKey | MinPriceKey | MaxPriceKey | YearKey | MaxMileageKey | BatteryCapacityKey | LocationKey

  /** Each filter is mirrored by the query parameter of the same name. */
  function KeyName(k: FilterKey): string {
    match k
    case BrandKey => "brand"
    case CategoryKey => "category"
    case MinPriceKey => "minPrice"
    case MaxPriceKey => "maxPrice"
    case YearKey => "year"
    case MaxMileageKey => "maxMileage"
    case BatteryCapacityKey => "batteryCapacity"
    case LocationKey => "location"
  }

  datatype Filters = Filters(
    brand: string, category: string, minPrice: string, maxPrice: string,
    year: string, maxMileage: string, batteryCapacity: string, location: string)

  function Field(f: Filters, k: FilterKey): string {
    match k
    case BrandKey => f.brand
    case CategoryKey => f.category
    case MinPriceKey => f.minPrice
    case MaxPriceKey => f.maxPrice
    case YearKey => f.year
    case MaxMileageKey => f.maxMileage
    case BatteryCapacityKey => f.batteryCapacity
    case LocationKey => f.location
  }

  /** `{ ...filters, [key]: value }`. */
  function WithField(f: Filters, k: FilterKey, v: string): (r: Filters)
    ensures Field(r, k) == v
    ensures forall k2 :: k2 != k ==> Field(r, k2) == Field(f, k2)
  {
    match k
    case BrandKey => f.(brand := v)
    case CategoryKey => f.(category := v)
    case MinPriceKey => f.(minPrice := v)
    case MaxPriceKey => f.(maxPrice := v)
    case YearKey => f.(year := v)
    case MaxMileageKey => f.(maxMileage := v)
    case BatteryCapacityKey => f.(batteryCapacity := v)
    case LocationKey => f.(location := v)
  }

  /** The query string, one value per name. */
  type Params = map<string, string>

  /** `searchParams.get(name)`. */
  function Param(params: Params, name: string): Option<string> {
    if name in params then Some(params[name]) else None
  }

  /** The filters mirror the query string: each is its parameter, or empty when that is absent. */
  ghost predicate Agree(f: Filters, params: Params) {
    forall k :: Field(f, k) == Param(params, KeyName(k)).GetOr("")
  }

  /** The initial filters: `searchParams.get(name) || ""` for each. */
  function FiltersFrom(params: Params): (r: Filters)
    ensures Agree(r, params)
  {
    Filters(
      Param(params, "brand").GetOr(""), Param(params, "category").GetOr(""),
      Param(params, "minPrice").GetOr(""), Param(params, "maxPrice").GetOr(""),
      Param(params, "year").GetOr(""), Param(params, "maxMileage").GetOr(""),
      Param(params, "batteryCapacity").GetOr(""), Param(params, "location").GetOr(""))
  }

  /**
   * `handleFilterChange(key, value)`: the filter takes the value, and its parameter is
   * set when the value is non-empty and deleted otherwise.
   */
  function HandleFilterChange(f: Filters, params: Params, k: FilterKey, v: string): (r: (Filters, Params))
    ensures Field(r.0, k) == v && forall k2 :: k2 != k ==> Field(r.0, k2) == Field(f, k2)
    ensures Param(r.1, KeyName(k)) == (if v == "" then None else Some(v))
    ensures forall name :: name != KeyName(k) ==> Param(r.1, name) == Param(params, name)
  {
    (WithField(f, k, v), if v != "" then params[KeyName(k) := v] else params - {KeyName(k)})
  }

  lemma KeyNamesDistinct(a: FilterKey, b: FilterKey)
    ensures KeyName(a) == KeyName(b) <==> a == b
  {
    if a != b {
      assert KeyName(a)[0] != KeyName(b)[0] || KeyName(a)[1] != KeyName(b)[1] || |KeyName(a)| != |KeyName(b)|;
    }
  }

  /** A filter change keeps the filters and the query string in step. */
  lemma FilterChangeAgrees(f: Filters, params: Params, k: FilterKey, v: string)
    requires Agree(f, params)
    ensures var r := HandleFilterChange(f, params, k, v); Agree(r.0, r.1)
  {
    var r := HandleFilterChange(f, params, k, v);
    forall k2 ensures Field(r.0, k2) == Param(r.1, KeyName(k2)).GetOr("") {
      KeyNamesDistinct(k, k2);
    }
  }

  /** Setting a filter that was absent and then emptying it restores the query string. */
  lemma FilterChangeUndone(f: Filters, params: Params, k: FilterKey, v: string)
    requires KeyName(k) !in params
    ensures var r := HandleFilterChange(f, params, k, v);
      HandleFilterChange(r.0, r.1, k, "").1 == params
  {
  }

  const NoFilters: Filters := Filters("", "", "", "", "", "", "", "")

  /** `clearFilters()`: every filter empty, and the query string emptied too. */
  function ClearFilters(): (r: (Filters, Params))
    ensures forall k :: Field(r.0, k) == ""
    ensures Agree(r.0, r.1)
    ensures r.1 == map[]
  {
    (NoFilters, map[])
  }

  // ---------------------------------------------------------------------------
  // The filter pipeline
  // ---------------------------------------------------------------------------

  /** What the pipeline reads: the `q` and `featured` parameters and the filters. */
  datatype Criteria = Criteria(query: Option<string>, filters: Filters, featured: bool)

  function CriteriaOf(f: Filters, params: Params): Criteria {
    Criteria(Param(params, "q"), f, Param(params, "featured") == Some("true"))
  }

  /** The text query matches the lower-cased name, brand or type (missing ones read as ""). */
  predicate MatchesQuery(query: string, p: Product) {
    var q := Lower(query);
    Contains(Lower(p.name.GetOr("")), q) || Contains(Lower(p.brand.GetOr("")), q) || Contains(Lower(p.kind.GetOr("")), q)
  }

  /** `p.price >= parseInt(bound)`: false when either side is not a number. */
  predicate AtLeast(x: Option<int>, bound: string) {
    x.Some? && ParseInt(bound).Int? && x.value >= ParseInt(bound).v
  }

  predicate AtMost(x: Option<int>, bound: string) {
    x.Some? && ParseInt(bound).Int? && x.value <= ParseInt(bound).v
  }

  /** The filters run in this order, each only when its input is non-empty. */
  const StageCount: nat := 9

  predicate Active(c: Criteria, i: nat) {
    match i
    case 0 => c.query.Some? && c.query.value != ""
    case 1 => c.filters.category != ""
    case 2 => c.filters.brand != ""
    case 3 => c.filters.minPrice != ""
    case 4 => c.filters.maxPrice != ""
    case 5 => c.filters.year != ""
    case 6 => c.filters.maxMileage != ""
    case 7 => c.filters.location != ""
    case 8 => c.featured
    case _ => false
  }

  predicate Cond(c: Criteria, i: nat, p: Product) {
    match i
    case 0 => c.query.Some? && MatchesQuery(c.query.value, p)
    case 1 => p.kind == Some(c.filters.category)
    case 2 => p.brand == Some(c.filters.brand)
    case 3 => AtLeast(p.price, c.filters.minPrice)
    case 4 => AtMost(p.price, c.filters.maxPrice)
    case 5 => p.year.Some? && IntToString(p.year.value) == c.filters.year
    case 6 => p.mileage.None? || AtMost(p.mileage, c.filters.maxMileage)
    case 7 => p.location == Some(c.filters.location)
    case 8 => IsFeatured(p)
    case _ => true
  }

  /** The list after the first `n` filter statements, each a `filter` when its input is set. */
  function RunStages(products: seq<Product>, c: Criteria, n: nat): seq<Product>
    decreases n
  {
    if n == 0 then products
    else
      var prev := RunStages(products, c, n - 1);
      if Active(c, n - 1) then Seqs.Filter(prev, p => Cond(c, n - 1, p)) else prev
  }

  /** The listings shown: every filter applied in turn to the loaded list. */
  function Pipeline(products: seq<Product>, f: Filters, params: Params): seq<Product> {
    RunStages(products, CriteriaOf(f, params), StageCount)
  }

  /** A listing passes the first `n` filters. */
  predicate PassesFirst(c: Criteria, n: nat, p: Product) {
    forall i :: 0 <= i < n ==> !Active(c, i) || Cond(c, i, p)
  }

  /** The listings a search keeps, stated in one piece. */
  predicate Matches(c: Criteria, p: Product) {
    && (c.query.Some? && c.query.value != "" ==> MatchesQuery(c.query.value, p))
    && (c.filters.category != "" ==> p.kind == Some(c.filters.category))
    && (c.filters.brand != "" ==> p.brand == Some(c.filters.brand))
    && (c.filters.minPrice != "" ==> AtLeast(p.price, c.filters.minPrice))
    && (c.filters.maxPrice != "" ==> AtMost(p.price, c.filters.maxPrice))
    && (c.filters.year != "" ==> p.year.Some? && IntToString(p.year.value) == c.filters.year)
    && (c.filters.maxMileage != "" ==> p.mileage.None? || AtMost(p.mileage, c.filters.maxMileage))
    && (c.filters.location != "" ==> p.location == Some(c.filters.location))
    && (c.featured ==> IsFeatured(p))
  }

  lemma PassesFirstStep(c: Criteria, n: nat, p: Product)
    requires n > 0
    ensures PassesFirst(c, n, p) == (PassesFirst(c, n - 1, p) && (!Active(c, n - 1) || Cond(c, n - 1, p)))
  {
    if PassesFirst(c, n - 1, p) && (!Active(c, n - 1) || Cond(c, n - 1, p)) {
      forall i | 0 <= i < n ensures !Active(c, i) || Cond(c, i, p) {
      }
    }
  }

  /** One more stage filters the survivors of the earlier ones. */
  lemma StepFilter(products: seq<Product>, c: Criteria, n: nat)
    requires n > 0
    ensures Seqs.Filter(products, p => PassesFirst(c, n, p)) ==
      if Active(c, n - 1) then Seqs.Filter(Seqs.Filter(products, p => PassesFirst(c, n - 1, p)), p => Cond(c, n - 1, p))
      else Seqs.Filter(products, p => PassesFirst(c, n - 1, p))
  {
    forall p {
      PassesFirstStep(c, n, p);
    }
    Seqs.FilterStep(products, p => PassesFirst(c, n - 1, p), p => Cond(c, n - 1, p), p => PassesFirst(c, n, p), Active(c, n - 1));
  }

  /** Filtering in stages is one filter by the conjunction of the stages run so far. */
  lemma {:induction false} RunStagesIsOneFilter(products: seq<Product>, c: Criteria, n: nat)
    ensures RunStages(products, c, n) == Seqs.Filter(products, p => PassesFirst(c, n, p))
    decreases n
  {
    if n == 0 {
      Seqs.FilterAll(products, p => PassesFirst(c, 0, p));
    } else {
      RunStagesIsOneFilter(products, c, n - 1);
      StepFilter(products, c, n);
    }
  }

  lemma PassesAllStages(c: Criteria, p: Product)
    ensures PassesFirst(c, StageCount, p) <==> Matches(c, p)
  {
    if Matches(c, p) {
      forall i | 0 <= i < StageCount ensures !Active(c, i) || Cond(c, i, p) {
      }
    }
    if PassesFirst(c, StageCount, p) {
      assert !Active(c, 0) || Cond(c, 0, p);
      assert !Active(c, 1) || Cond(c, 1, p);
      assert !Active(c, 2) || Cond(c, 2, p);
      assert !Active(c, 3) || Cond(c, 3, p);
      assert !Active(c, 4) || Cond(c, 4, p);
      assert !Active(c, 5) || Cond(c, 5, p);
      assert !Active(c, 6) || Cond(c, 6, p);
      assert !Active(c, 7) || Cond(c, 7, p);
      assert !Active(c, 8) || Cond(c, 8, p);
    }
  }

  /**
   * The pipeline keeps exactly the listings that match every set criterion, in their
   * loaded order, each as often as it was loaded.
   */
  lemma PipelineIsFilter(products: seq<Product>, f: Filters, params: Params)
    ensures Pipeline(products, f, params) == Seqs.Filter(products, p => Matches(CriteriaOf(f, params), p))
  {
    var c := CriteriaOf(f, params);
    RunStagesIsOneFilter(products, c, StageCount);
    forall p ensures PassesFirst(c, StageCount, p) == Matches(c, p) {
      PassesAllStages(c, p);
    }
    Seqs.FilterExt(products, p => PassesFirst(c, StageCount, p), p => Matches(c, p));
  }

  /** So the result is an order-preserving selection of the loaded listings. */
  lemma PipelineSelects(products: seq<Product>, f: Filters, params: Params)
    ensures var r := Pipeline(products, f, params);
      && Seqs.IsSubseq(r, products)
      && forall p :: p in r <==> p in products && Matches(CriteriaOf(f, params), p)
  {
    PipelineIsFilter(products, f, params);
  }

  /** With no filters and no query string every loaded listing is shown. */
  lemma ClearedShowsAll(products: seq<Product>)
    ensures Pipeline(products, ClearFilters().0, ClearFilters().1) == products
  {
    PipelineIsFilter(products, ClearFilters().0, ClearFilters().1);
    Seqs.FilterAll(products, p => Matches(CriteriaOf(ClearFilters().0, ClearFilters().1), p));
  }

  /** A price bound that is not a number (`parseInt` gives NaN) removes every listing. */
  lemma UnparsableBoundShowsNothing(products: seq<Product>, f: Filters, params: Params)
    requires f.minPrice != "" && ParseInt(f.minPrice).NaN?
    ensures Pipeline(products, f, params) == []
  {
    PipelineIsFilter(products, f, params);
    forall p | p in products ensures !Matches(CriteriaOf(f, params), p) {
      assert !AtLeast(p.price, f.minPrice);
    }
    Seqs.FilterNone(products, p => Matches(CriteriaOf(f, params), p));
  }

  /** A listing with no mileage is never removed by the mileage bound. */
  lemma MissingMileageKept(c: Criteria, p: Product)
    requires p.mileage.None?
    ensures Matches(c, p) <==> Matches(c.(filters := c.filters.(maxMileage := "")), p)
  {
  }

  /** The query is matched without regard to case. */
  lemma QueryIgnoresCase(query: string, p: Product)
    ensures MatchesQuery(Upper(query), p) <==> MatchesQuery(query, p)
  {
    LowerUpper(query);
  }

  // ---------------------------------------------------------------------------
  // Cards
  // ---------------------------------------------------------------------------

  datatype Vehicle = Vehicle(
    id: string, title: Option<string>, brand: Option<string>, model: string,
    price: Option<int>, year: Option<int>, mileage: int, location: string, isFeatured: bool)

  /** `mapProductToVehicle(p)`. */
  function ToVehicle(p: Product): (v: Vehicle)
    ensures v.isFeatured <==> IsFeatured(p)
    ensures v.mileage == (if p.mileage.Some? then p.mileage.value else 0)
    ensures v.id == p.id.GetOr("") && v.model == p.kind.GetOr("") && v.location == p.location.GetOr("")
  {
    Vehicle(p.id.GetOr(""), p.name, p.brand, p.kind.GetOr(""), p.price, p.year, p.mileage.GetOr(0), p.location.GetOr(""), IsFeatured(p))
  }

  /** With `featured=true`, every card shown is marked featured. */
  lemma FeaturedCardsOnly(products: seq<Product>, f: Filters, params: Params)
    requires Param(params, "featured") == Some("true")
    ensures forall p :: p in Pipeline(products, f, params) ==> ToVehicle(p).isFeatured
  {
    PipelineSelects(products, f, params);
  }

  // ---------------------------------------------------------------------------
  // Option lists
  // ---------------------------------------------------------------------------

  /** `.filter(Boolean)` on optional strings: the non-empty values. */
  function NonEmpty(xs: seq<Option<string>>): (r: seq<string>)
    ensures forall s :: s in r <==> s != "" && Some(s) in xs
  {
    if xs == [] then []
    else
      var rest := NonEmpty(xs[1..]);
      assert forall s :: Some(s) in xs <==> xs[0] == Some(s) || Some(s) in xs[1..];
      if xs[0].Some? && xs[0].value != "" then [xs[0].value] + rest else rest
  }

  /** `.filter((y) => !!y)` on optional years: the present, non-zero ones. */
  function NonZero(xs: seq<Option<int>>): (r: seq<int>)
    ensures forall y :: y in r <==> y != 0 && Some(y) in xs
  {
    if xs == [] then []
    else
      var rest := NonZero(xs[1..]);
      assert forall y :: Some(y) in xs <==> xs[0] == Some(y) || Some(y) in xs[1..];
      if xs[0].Some? && xs[0].value != 0 then [xs[0].value] + rest else rest
  }

  /** The brand options: each non-empty brand once, in order of first appearance. */
  function Brands(products: seq<Product>): (r: seq<string>)
    ensures Seqs.NoDups(r)
    ensures forall b :: b in r <==> b != "" && exists i :: 0 <= i < |products| && products[i].brand == Some(b)
  {
    var bs := seq(|products|, i requires 0 <= i < |products| => products[i].brand);
    assert forall i :: 0 <= i < |products| ==> bs[i] == products[i].brand;
    Seqs.Dedup(NonEmpty(bs))
  }

  /** The location options: each non-empty location once, in order of first appearance. */
  function Locations(products: seq<Product>): (r: seq<string>)
    ensures Seqs.NoDups(r)
    ensures forall l :: l in r <==> l != "" && exists i :: 0 <= i < |products| && products[i].location == Some(l)
  {
    var ls := seq(|products|, i requires 0 <= i < |products| => products[i].location);
    assert forall i :: 0 <= i < |products| ==> ls[i] == products[i].location;
    Seqs.Dedup(NonEmpty(ls))
  }

  function YearValues(products: seq<Product>): (ys: seq<Option<int>>)
    ensures |ys| == |products|
    ensures forall i :: 0 <= i < |products| ==> ys[i] == products[i].year
  {
    seq(|products|, i requires 0 <= i < |products| => products[i].year)
  }

  /** The year options: each non-zero year once, newest first. */
  function Years(products: seq<Product>): (r: seq<int>)
    ensures Seqs.SortedDesc(r) && Seqs.NoDups(r)
    ensures forall y :: y in r <==> y != 0 && exists i :: 0 <= i < |products| && products[i].year == Some(y)
  {
    var distinct := Seqs.Dedup(NonZero(YearValues(products)));
    var r := Seqs.SortDesc(distinct);
    SortedYears(distinct, r);
    r
  }

  lemma SortedYears(distinct: seq<int>, r: seq<int>)
    requires multiset(r) == multiset(distinct) && Seqs.NoDups(distinct)
    ensures Seqs.NoDups(r)
    ensures forall y :: y in r <==> y in distinct
  {
    Seqs.NoDupsPermutation(distinct, r);
    assert forall y :: y in r <==> y in multiset(r);
    assert forall y :: y in distinct <==> y in multiset(distinct);
  }
}
