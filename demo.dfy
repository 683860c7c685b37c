/**
 * The repository's demonstration data, worked through the model: the
 * activity tree Food; Auto -> Cars -> Parts -> Engine, and one company
 * linked to each activity.
 */
module Demo {
  import opened Wrappers
  import opened Schema
  import opened ActivityTree
  import opened Filters
  import opened Search
  import opened Config

  const Food: int := 1
  const Auto: int := 2
  const Cars: int := 3
  const Parts: int := 4
  const Engine: int := 5

  const DemoTree: map<int, ActivityRow> := map[
    Food := ActivityRow("Food", None),
    Auto := ActivityRow("Auto", None),
    Cars := ActivityRow("Cars", Some(Auto)),
    Parts := ActivityRow("Parts", Some(Cars)),
    Engine := ActivityRow("Engine", Some(Parts))]

  /** Two levels below Auto are Cars and Parts; Engine, three levels down, is not returned. */
  lemma AutoDescendants()
    ensures Descendants(DemoTree, Auto, DescendantDepth) == {Cars, Parts}
  {
    assert Level(DemoTree, Auto, 1) == {Cars};
    assert Level(DemoTree, Auto, 2) == {Parts};
  }

  /** Food has no sub-activities, so it has no descendants. */
  lemma FoodHasNoDescendants()
    ensures Descendants(DemoTree, Food, DescendantDepth) == {}
  {
    assert Children(DemoTree, {Food}) == {};
    LeafHasNoDescendants(DemoTree, Food, DescendantDepth);
  }

  /**
   * Two activities that are each other's parent: the level bound stops the
   * recursion after two levels, and the root itself comes back as its own
   * grandchild.
   */
  lemma CycleStopsAtDepth()
    ensures var cycle := map[1 := ActivityRow("A", Some(2)), 2 := ActivityRow("B", Some(1))];
            Descendants(cycle, 1, DescendantDepth) == {1, 2}
  {
    var cycle := map[1 := ActivityRow("A", Some(2)), 2 := ActivityRow("B", Some(1))];
    assert Level(cycle, 1, 1) == {2};
    assert Level(cycle, 1, 2) == {1};
  }

  function DemoCompany(id: int, activity: int): (c: CompanyRow)
  {
    CompanyRow(id, "Company", "LLC", 1, [activity])
  }

  const DemoStore: Store := Store(
    [DemoCompany(10, Food), DemoCompany(20, Auto), DemoCompany(30, Cars), DemoCompany(40, Parts), DemoCompany(50, Engine)],
    map[1 := BuildingRow("Address", Point(37.6173, 55.7558))],
    DemoTree,
    [],
    Geo((p, q, r) => false, (ring, p) => false),
    ch => ch)

  const NoFilters: SearchFilters := SearchFilters(None, None, false, None, None, None, None, None, None, None, None, 0)

  const AutoWithChildren: SearchFilters := NoFilters.(activityId := Some(Auto), activityChildren := true)

  lemma AutoWithChildrenAdmits()
    ensures !Admits(DemoStore, AutoWithChildren, DemoStore.companies[0])
    ensures Admits(DemoStore, AutoWithChildren, DemoStore.companies[1])
    ensures Admits(DemoStore, AutoWithChildren, DemoStore.companies[2])
    ensures Admits(DemoStore, AutoWithChildren, DemoStore.companies[3])
    ensures !Admits(DemoStore, AutoWithChildren, DemoStore.companies[4])
  {
    AutoDescendants();
  }

  lemma FilterStep(rows: seq<CompanyRow>, p: CompanyRow -> bool)
    requires rows != []
    ensures Filter(rows, p) == (if p(rows[0]) then [rows[0]] else []) + Filter(rows[1..], p)
  {
  }

  /** Filtering five rows of which only the middle three pass keeps those three. */
  lemma FilterMiddleThree(rows: seq<CompanyRow>, p: CompanyRow -> bool)
    requires |rows| == 5
    requires !p(rows[0]) && p(rows[1]) && p(rows[2]) && p(rows[3]) && !p(rows[4])
    ensures Filter(rows, p) == rows[1..4]
  {
    var r0, r1, r2, r3, r4 := rows[0], rows[1], rows[2], rows[3], rows[4];
    assert rows[4..][1..] == [];
    FilterStep(rows[4..], p);
    assert Filter(rows[4..], p) == [];
    assert rows[3..][1..] == rows[4..];
    FilterStep(rows[3..], p);
    assert Filter(rows[3..], p) == [r3];
    assert rows[2..][1..] == rows[3..];
    FilterStep(rows[2..], p);
    assert Filter(rows[2..], p) == [r2, r3];
    assert rows[1..][1..] == rows[2..];
    FilterStep(rows[1..], p);
    assert Filter(rows[1..], p) == [r1, r2, r3];
    FilterStep(rows, p);
  }

  lemma AutoWithChildrenMatches()
    ensures Matches(DemoStore, AutoWithChildren) == DemoStore.companies[1..4]
  {
    AutoWithChildrenAdmits();
    FilterMiddleThree(DemoStore.companies, c => Admits(DemoStore, AutoWithChildren, c));
  }

  lemma AutoWithChildrenMatchList()
    ensures Matches(DemoStore, AutoWithChildren) == [DemoCompany(20, Auto), DemoCompany(30, Cars), DemoCompany(40, Parts)]
  {
    AutoWithChildrenMatches();
  }

  lemma FirstPageOfThree(m: seq<CompanyRow>)
    requires |m| == 3
    ensures Summaries(Window(m, 0, 10)) == [Summary(m[0]), Summary(m[1]), Summary(m[2])]
  {
    assert Window(m, 0, 10) == m;
  }

  /**
   * Searching by Auto with its children, at the default page size, finds the
   * Auto, Cars and Parts companies, and not the Engine company four levels
   * down.
   */
  lemma AutoWithChildrenSearch()
    ensures SearchResult(DemoStore, DefaultSettings.companyItemsPerPage, AutoWithChildren) ==
            Success(SearchPage([CompanySummary(20, "Company", "LLC"), CompanySummary(30, "Company", "LLC"),
                                CompanySummary(40, "Company", "LLC")], 3))
  {
    var m := [DemoCompany(20, Auto), DemoCompany(30, Cars), DemoCompany(40, Parts)];
    AutoWithChildrenMatchList();
    FirstPageOfThree(m);
    assert DefaultSettings.companyItemsPerPage == 10;
  }
}
