/**
 * src/pages/HomePage.tsx: the first page of listings, the category counts, and the
 * two grids the page shows.
 */
module HomePage {
  import opened Wrappers
  import opened Js
  import opened Catalog
  import Seqs
  import SearchPage

  // ---------------------------------------------------------------------------
  // Loading
  // ---------------------------------------------------------------------------

  /** The home page asks for the first page of twelve listings. */
  const FirstPage: nat := 1
  const PageSize: nat := 12

  const LoadFailed: string := "Không thể tải danh sách sản phẩm"

  datatype State = State(products: seq<Product>, loading: bool, error: Option<string>)

  /** Before the first response: no listings, a spinner, no error. */
  const Initial: State := State([], true, None)

  /** How `getProducts` settled: with a body, or by throwing. */
  datatype Response = Loaded(data: Value) | Failed

  /**
   * `fetchProducts`: the spinner shows and the error clears; a body replaces the list
   * with its normalised items; a failure sets the error and leaves the list as it was.
   * Either way the spinner stops.
   */
  function Fetch(s: State, response: Response): (r: State)
    ensures !r.loading
    ensures response.Loaded? ==> r.error.None? && r.products == Products(response.data)
    ensures response.Failed? ==> r.error == Some(LoadFailed) && r.products == s.products
  {
    var started := s.(loading := true, error := None);
    match response
    case Loaded(data) => started.(products := Products(data), loading := false)
    case Failed => started.(error := Some(LoadFailed), loading := false)
  }

  /** A later successful load forgets an earlier failure. */
  lemma RetryClearsError(s: State, data: Value)
    ensures Fetch(Fetch(s, Failed), Loaded(data)) == Fetch(s, Loaded(data))
  {
  }

  /** A failed first load leaves the page empty, with the error shown. */
  lemma FirstLoadFails()
    ensures Fetch(Initial, Failed) == State([], false, Some(LoadFailed))
  {
  }

  // ---------------------------------------------------------------------------
  // Categories
  // ---------------------------------------------------------------------------

  /** The four battery types the page counts, in display order. */
  const CategoryIds: seq<string> := ["Lithium-ion", "LiFePO4", "NiMH", "Lead-acid"]

  datatype Category = Category(id: string, name: string, count: nat)

  /** `p.type === id`. */
  function IsKind(id: string): Product -> bool {
    (p: Product) => p.kind == Some(id)
  }

  /** The type is one of `ids`. */
  function InKinds(ids: seq<string>): Product -> bool {
    (p: Product) => p.kind.Some? && p.kind.value in ids
  }

  /** Each category card: its id, its label, and the number of loaded listings of its type. */
  function Categories(products: seq<Product>): (r: seq<Category>)
    ensures |r| == |CategoryIds|
    ensures forall i :: 0 <= i < |r| ==> r[i].id == CategoryIds[i] && r[i].name == "Pin " + CategoryIds[i]
    ensures forall i :: 0 <= i < |r| ==> r[i].count == Seqs.Count(products, IsKind(CategoryIds[i]))
  {
    seq(|CategoryIds|, i requires 0 <= i < |CategoryIds| =>
      Category(CategoryIds[i], "Pin " + CategoryIds[i], Seqs.Count(products, IsKind(CategoryIds[i]))))
  }

  /** The counts of the categories `ids`, added up. */
  function Total(products: seq<Product>, ids: seq<string>): nat
    decreases |ids|
  {
    if ids == [] then 0 else Seqs.Count(products, IsKind(ids[0])) + Total(products, ids[1..])
  }

  /** For distinct ids, the added counts are the number of listings of any of those types. */
  lemma {:induction false} TotalCountsEachListingOnce(products: seq<Product>, ids: seq<string>)
    requires Seqs.NoDups(ids)
    ensures Total(products, ids) == Seqs.Count(products, InKinds(ids))
    decreases |ids|
  {
    if ids == [] {
      Seqs.FilterNone(products, InKinds(ids));
    } else {
      TotalCountsEachListingOnce(products, ids[1..]);
      forall x ensures InKinds(ids)(x) == (IsKind(ids[0])(x) || InKinds(ids[1..])(x)) {
        assert ids == [ids[0]] + ids[1..];
      }
      forall x ensures !(IsKind(ids[0])(x) && InKinds(ids[1..])(x)) {
        if IsKind(ids[0])(x) && InKinds(ids[1..])(x) {
          assert false;
        }
      }
      Seqs.CountDisjoint(products, IsKind(ids[0]), InKinds(ids[1..]), InKinds(ids));
    }
  }

  /** No listing is counted under two categories, so the cards never count more than was loaded. */
  lemma CategoryCountsWithinList(products: seq<Product>)
    ensures Total(products, CategoryIds) == Seqs.Count(products, InKinds(CategoryIds))
    ensures Total(products, CategoryIds) <= |products|
  {
    CategoryIdsDistinct();
    TotalCountsEachListingOnce(products, CategoryIds);
  }

  /** The four category ids are distinct: they differ in length or in their second letter. */
  lemma CategoryIdsDistinct()
    ensures Seqs.NoDups(CategoryIds)
  {
    var ids := CategoryIds;
    assert |ids[0]| == 11 && |ids[1]| == 7 && |ids[2]| == 4 && |ids[3]| == 9;
    assert ids[1][2] == 'F' && ids[2][2] == 'M';
  }

  // ---------------------------------------------------------------------------
  // What the page shows
  // ---------------------------------------------------------------------------

  /** The featured section: a spinner, the error, the empty notice, or up to six cards. */
  datatype Featured = Spinner | ErrorNotice(message: string) | EmptyNotice | Cards(items: seq<Product>)

  const FeaturedCount: nat := 6

  function FeaturedSection(s: State): (r: Featured)
    ensures r.Spinner? <==> s.loading
    ensures r.ErrorNotice? <==> !s.loading && s.error.Some?
    ensures r.EmptyNotice? <==> !s.loading && s.error.None? && s.products == []
    ensures r.Cards? ==> 0 < |r.items| <= FeaturedCount && r.items <= s.products
    ensures r.Cards? && |s.products| >= FeaturedCount ==> |r.items| == FeaturedCount
    ensures r.Cards? ==> r.items == s.products[..if |s.products| < FeaturedCount then |s.products| else FeaturedCount]
  {
    if s.loading then Spinner
    else if s.error.Some? then ErrorNotice(s.error.value)
    else if |s.products| == 0 then EmptyNotice
    else Cards(Seqs.Slice(s.products, 0, FeaturedCount))
  }

  /** "Latest listings": shown once loaded when there are more than six, with listings 7 to 12. */
  function LatestSection(s: State): (r: Option<seq<Product>>)
    ensures r.Some? <==> !s.loading && |s.products| > FeaturedCount
    ensures r.Some? ==> 0 < |r.value| <= PageSize - FeaturedCount
    ensures r.Some? ==> FeaturedCount + |r.value| <= |s.products|
    ensures r.Some? ==> forall i :: 0 <= i < |r.value| ==> r.value[i] == s.products[FeaturedCount + i]
  {
    if !s.loading && |s.products| > FeaturedCount then Some(Seqs.Slice(s.products, FeaturedCount, PageSize))
    else None
  }

  /**
   * After a good load the two grids together are the first page of the list, in order,
   * with no listing shown twice: the featured cards alone up to six listings, both grids
   * beyond that.
   */
  lemma GridsShowFirstPage(s: State)
    requires !s.loading && s.error.None?
    ensures FeaturedSection(s).Cards? <==> s.products != []
    ensures LatestSection(s).Some? <==> |s.products| > FeaturedCount
    ensures var featured := if FeaturedSection(s).Cards? then FeaturedSection(s).items else [];
      var latest := LatestSection(s).GetOr([]);
      var n := if |s.products| <= PageSize then |s.products| else PageSize;
      featured + latest == s.products[..n]
  {
    var n := if |s.products| <= PageSize then |s.products| else PageSize;
    if |s.products| > FeaturedCount {
      assert FeaturedSection(s).items == s.products[..FeaturedCount];
      assert LatestSection(s).value == s.products[FeaturedCount..n];
      assert s.products[..FeaturedCount] + s.products[FeaturedCount..n] == s.products[..n];
    } else if s.products != [] {
      assert FeaturedSection(s).items == s.products[..n];
    }
  }

  /** The latest grid can show while an error is on screen: it tests only the spinner and the length. */
  lemma LatestShownBesideError(products: seq<Product>)
    requires |products| > FeaturedCount
    ensures var s := Fetch(State(products, false, None), Failed);
      FeaturedSection(s).ErrorNotice? && LatestSection(s).Some?
  {
  }

  // ---------------------------------------------------------------------------
  // Links into the search page
  // ---------------------------------------------------------------------------

  /** A link into the search page: its path and query string. */
  datatype Link = Link(path: string, query: SearchPage.Params)

  const SearchPath: string := "/search"

  /** The parameter the category card writes its id under, `/search?type=<id>`. */
  const WrittenKey: string := "type"

  /** The parameter the search page reads a category from. */
  const CategoryKey: string := "category"

  /** A category card's link: the search page with the card's id under one parameter. */
  function CardLink(key: string, id: string): (r: Link)
    ensures r.path == SearchPath && r.query.Keys == {key} && r.query[key] == id
  {
    Link(SearchPath, map[key := id])
  }

  /**
   * The search page reads no `type` parameter, so the card opens an unfiltered search:
   * every loaded listing is shown, whatever its type.
   */
  lemma CategoryLinkAsWrittenShowsAll(products: seq<Product>, id: string)
    ensures var q := CardLink(WrittenKey, id).query;
      SearchPage.Pipeline(products, SearchPage.FiltersFrom(q), q) == products
  {
    var q := CardLink(WrittenKey, id).query;
    var c := SearchPage.CriteriaOf(SearchPage.FiltersFrom(q), q);
    assert SearchPage.FiltersFrom(q) == SearchPage.NoFilters;
    SearchPage.PipelineIsFilter(products, SearchPage.FiltersFrom(q), q);
    Seqs.FilterAll(products, p => SearchPage.Matches(c, p));
  }

  /** Following a card that uses the search page's own `category` parameter shows exactly the listings its count counted. */
  lemma CategoryLinkShowsCounted(products: seq<Product>, id: string)
    requires id in CategoryIds
    ensures var q := CardLink(CategoryKey, id).query;
      && SearchPage.Pipeline(products, SearchPage.FiltersFrom(q), q) == Seqs.Filter(products, IsKind(id))
      && |SearchPage.Pipeline(products, SearchPage.FiltersFrom(q), q)| == Seqs.Count(products, IsKind(id))
  {
    var q := CardLink(CategoryKey, id).query;
    var c := SearchPage.CriteriaOf(SearchPage.FiltersFrom(q), q);
    assert SearchPage.FiltersFrom(q) == SearchPage.NoFilters.(category := id);
    SearchPage.PipelineIsFilter(products, SearchPage.FiltersFrom(q), q);
    Seqs.FilterExt(products, p => SearchPage.Matches(c, p), IsKind(id));
  }
}
