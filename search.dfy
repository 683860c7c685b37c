/**
 * `CompanyRepository.list_filtered`: the conditions list is built by
 * successive appends, combined into one WHERE clause, and that same clause
 * drives the page query (LIMIT page size OFFSET offset, in storage order)
 * and the count query.
 */
module Search {
  import opened Wrappers
  import opened Schema
  import opened ActivityTree
  import opened Filters
  import opened Config

  /** The projection of a company returned in list results. */
  datatype CompanySummary = CompanySummary(id: int, name: string, legalForm: string)

  /** One page of results and the number of all matches. */
  datatype SearchPage = SearchPage(items: seq<CompanySummary>, total: nat)

  /** The store refuses the query: PostgreSQL rejects a negative LIMIT or OFFSET. */
  datatype SearchError = PaginationRejected

  /**
   * The rows of `rows` satisfying `p`, in their original order (a WHERE
   * clause): each satisfying row is kept as often as it is stored, every
   * other row is dropped.
   */
  function Filter(rows: seq<CompanyRow>, p: CompanyRow -> bool): (r: seq<CompanyRow>)
    ensures |r| <= |rows|
    ensures forall x :: x in r <==> x in rows && p(x)
    ensures forall x :: multiset(r)[x] == if p(x) then multiset(rows)[x] else 0
    decreases |rows|
  {
    if rows == [] then []
    else
      assert rows == [rows[0]] + rows[1..];
      (if p(rows[0]) then [rows[0]] else []) + Filter(rows[1..], p)
  }

  /** `SELECT count(*) ... WHERE p`. */
  function Count(rows: seq<CompanyRow>, p: CompanyRow -> bool): (n: nat)
    ensures n <= |rows|
    decreases |rows|
  {
    if rows == [] then 0 else (if p(rows[0]) then 1 else 0) + Count(rows[1..], p)
  }

  /** `LIMIT limit OFFSET offset` applied to `s`. */
  function Window<T>(s: seq<T>, offset: nat, limit: nat): (r: seq<T>)
    ensures |r| == if offset >= |s| then 0 else if limit < |s| - offset then limit else |s| - offset
    ensures forall i :: 0 <= i < |r| ==> r[i] == s[offset + i]
  {
    if offset >= |s| then []
    else if limit < |s| - offset then s[offset..offset + limit]
    else s[offset..]
  }

  function Summary(c: CompanyRow): (s: CompanySummary)
  {
    CompanySummary(c.id, c.name, c.legalForm)
  }

  function Summaries(rows: seq<CompanyRow>): (r: seq<CompanySummary>)
    ensures |r| == |rows|
    ensures forall i :: 0 <= i < |rows| ==> r[i] == Summary(rows[i])
  {
    seq(|rows|, i requires 0 <= i < |rows| => Summary(rows[i]))
  }

  /** The companies the search admits, in storage order. */
  function Matches(store: Store, f: SearchFilters): (r: seq<CompanyRow>)
    ensures forall c :: c in r <==> c in store.companies && Admits(store, f, c)
  {
    Filter(store.companies, c => Admits(store, f, c))
  }

  /**
   * What a search returns: the page of the admitted companies and their
   * count; the store refuses exactly a negative page size or offset.
   */
  function SearchResult(store: Store, pageSize: int, f: SearchFilters): (r: Result<SearchPage, SearchError>)
    ensures r.Failure? <==> pageSize < 0 || f.offset < 0
  {
    if pageSize < 0 || f.offset < 0 then Failure(PaginationRejected)
    else
      var matches := Matches(store, f);
      Success(SearchPage(Summaries(Window(matches, f.offset, pageSize)), |matches|))
  }

  /** The `conditions` list of `list_filtered`, built by successive appends. */
  method BuildConditions(store: Store, f: SearchFilters) returns (conditions: seq<Condition>)
    ensures conditions == Conditions(store, f)
  {
    conditions := [];

    // the building filter
    if f.buildingId.Some? {
      conditions := conditions + [BuildingIs(f.buildingId.value)];
    }
    assert conditions == BuildingConditions(f);
    // the name filter, skipped for an absent or empty name
    if f.name.Some? && f.name.value != "" {
      conditions := conditions + [NameILike(f.name.value)];
    }
    assert conditions == BuildingConditions(f) + NameConditions(f);
    // the radius filter, centred on (lng, lat)
    if f.lat.Some? && f.lng.Some? && f.radius.Some? {
      var point := MakePoint(f.lng.value, f.lat.value);
      assert point == RadiusCenter(f);
      conditions := conditions + [BuildingWithin(point, f.radius.value)];
    }
    assert conditions == BuildingConditions(f) + NameConditions(f) + RadiusConditions(f);
    // the rectangle filter, as a closed five-point ring
    if f.latx.Some? && f.lngx.Some? && f.laty.Some? && f.lngy.Some? {
      var lngx, latx, lngy, laty := f.lngx.value, f.latx.value, f.lngy.value, f.laty.value;
      var ring := [MakePoint(lngx, latx), MakePoint(lngx, laty), MakePoint(lngy, laty),
                   MakePoint(lngy, latx), MakePoint(lngx, latx)];
      assert ring == RectangleRing(f);
      conditions := conditions + [BuildingCoveredBy(ring)];
    }
    assert conditions == BuildingConditions(f) + NameConditions(f) + RadiusConditions(f)
                         + RectangleConditions(f);
    // the activity filter, widened to two levels of descendants on request
    if f.activityId.Some? {
      var activityIds := {f.activityId.value};
      if f.activityChildren {
        activityIds := activityIds + Descendants(store.activities, f.activityId.value, DescendantDepth);
      }
      assert activityIds == TargetActivities(store, f);
      conditions := conditions + [LinkedToAny(activityIds)];
    }
  }

  /**
   * `list_filtered` with the WHERE clause combined as intended (all
   * conditions conjoined); `Filters.CombineAsWritten` is the combination as
   * the source writes it. The page size is the `company_items_per_page`
   * setting.
   */
  method ListFiltered(store: Store, settings: Settings, f: SearchFilters) returns (r: Result<SearchPage, SearchError>)
    ensures r == SearchResult(store, settings.companyItemsPerPage, f)
  {
    var pageSize := settings.companyItemsPerPage;
    var conditions := BuildConditions(store, f);

    var where: Option<Condition> := None;
    var countWhere: Option<Condition> := None;
    if |conditions| > 1 {
      where := Some(Conjoin(conditions));
      countWhere := Some(Conjoin(conditions));
    } else if |conditions| > 0 {
      where := Some(conditions[0]);
      countWhere := Some(conditions[0]);
    }
    assert where == countWhere == Combine(conditions);

    if pageSize < 0 || f.offset < 0 {
      return Failure(PaginationRejected);
    }
    forall c ensures HoldsWhere(store, where, c) == Admits(store, f, c) {
      ComposedConditionAdmits(store, f, c);
    }
    var pageQuery := c => HoldsWhere(store, where, c);
    var countQuery := c => HoldsWhere(store, countWhere, c);
    FilterSamePredicate(store.companies, pageQuery, c => Admits(store, f, c));
    CountIsFilterLength(store.companies, countQuery);
    FilterSamePredicate(store.companies, countQuery, c => Admits(store, f, c));

    var companies := Window(Filter(store.companies, pageQuery), f.offset, pageSize);
    var total := Count(store.companies, countQuery);
    r := Success(SearchPage(Summaries(companies), total));
  }

  // ---------------------------------------------------------------------------
  // Lemmas

  lemma {:induction false} FilterSamePredicate(rows: seq<CompanyRow>, p: CompanyRow -> bool, q: CompanyRow -> bool)
    requires forall x :: p(x) == q(x)
    ensures Filter(rows, p) == Filter(rows, q)
    decreases |rows|
  {
    if rows != [] {
      FilterSamePredicate(rows[1..], p, q);
    }
  }

  /** The count query counts exactly the rows the page query draws from. */
  lemma {:induction false} CountIsFilterLength(rows: seq<CompanyRow>, p: CompanyRow -> bool)
    ensures Count(rows, p) == |Filter(rows, p)|
    decreases |rows|
  {
    if rows != [] {
      CountIsFilterLength(rows[1..], p);
    }
  }

  /** A predicate that admits every row filters nothing out. */
  lemma {:induction false} FilterAll(rows: seq<CompanyRow>, p: CompanyRow -> bool)
    requires forall x :: p(x)
    ensures Filter(rows, p) == rows
    decreases |rows|
  {
    if rows != [] {
      FilterAll(rows[1..], p);
    }
  }

  /**
   * A successful search returns `total` = the number of all matches and the
   * page matches[offset .. offset + pageSize], projected; its length is
   * min(pageSize, max(0, total - offset)).
   */
  lemma SearchPageShape(store: Store, pageSize: int, f: SearchFilters)
    ensures SearchResult(store, pageSize, f).Failure? <==> pageSize < 0 || f.offset < 0
    ensures SearchResult(store, pageSize, f).Success? ==>
      var page := SearchResult(store, pageSize, f).value;
      var matches := Matches(store, f);
      && page.total == |matches|
      && |page.items| == (if f.offset >= page.total then 0
                          else if pageSize < page.total - f.offset then pageSize
                          else page.total - f.offset)
      && forall i :: 0 <= i < |page.items| ==> page.items[i] == Summary(matches[f.offset + i])
  {
  }

  /** Every company on a page is a stored company that passes every active filter. */
  lemma PageItemsAreAdmitted(store: Store, pageSize: int, f: SearchFilters, i: int)
    requires SearchResult(store, pageSize, f).Success?
    requires 0 <= i < |SearchResult(store, pageSize, f).value.items|
    ensures exists c :: c in store.companies && Admits(store, f, c) &&
                        SearchResult(store, pageSize, f).value.items[i] == Summary(c)
  {
    var matches := Matches(store, f);
    var c := matches[f.offset + i];
    assert c in matches;
  }

  /** `total` does not depend on the offset. */
  lemma TotalIndependentOfOffset(store: Store, pageSize: int, f: SearchFilters, offset: int)
    requires pageSize >= 0 && f.offset >= 0 && offset >= 0
    ensures SearchResult(store, pageSize, f).value.total ==
            SearchResult(store, pageSize, f.(offset := offset)).value.total
  {
    MatchesIgnoreOffset(store, f, offset);
  }

  lemma MatchesIgnoreOffset(store: Store, f: SearchFilters, offset: int)
    ensures Matches(store, f) == Matches(store, f.(offset := offset))
  {
    var g := f.(offset := offset);
    assert forall c :: Admits(store, f, c) == Admits(store, g, c);
    FilterSamePredicate(store.companies, c => Admits(store, f, c), c => Admits(store, g, c));
  }

  /** An offset at or past the total yields an empty page and the same total. */
  lemma OffsetPastTotal(store: Store, pageSize: int, f: SearchFilters)
    requires pageSize >= 0 && f.offset >= 0
    requires f.offset >= |Matches(store, f)|
    ensures SearchResult(store, pageSize, f).value.items == []
    ensures SearchResult(store, pageSize, f).value.total == SearchResult(store, pageSize, f.(offset := 0)).value.total
  {
    TotalIndependentOfOffset(store, pageSize, f, 0);
  }

  /** With no active filter every company matches, in storage order. */
  lemma UnfilteredSearch(store: Store, pageSize: int, f: SearchFilters)
    requires ActiveFilterCount(f) == 0
    requires pageSize >= 0 && f.offset >= 0
    ensures SearchResult(store, pageSize, f).value.total == |store.companies|
    ensures SearchResult(store, pageSize, f).value.items == Summaries(Window(store.companies, f.offset, pageSize))
  {
    FilterAll(store.companies, c => Admits(store, f, c));
  }
}
