/**
 * Filter composition for `CompanyRepository.list_filtered`: each optional
 * search parameter contributes zero or one condition on a company row, and
 * the list of conditions becomes the WHERE clause shared by the page query
 * and the count query.
 */
module Filters {
  import opened Wrappers
  import opened Schema
  import opened ActivityTree

  /** The optional search parameters of `list_filtered`. */
  datatype SearchFilters = SearchFilters(
    buildingId: Option<int>,
    activityId: Option<int>,
    activityChildren: bool,
    name: Option<string>,
    lat: Option<real>,
    lng: Option<real>,
    radius: Option<int>,
    latx: Option<real>,
    lngx: Option<real>,
    laty: Option<real>,
    lngy: Option<real>,
    offset: int)

  /** The depth the activity filter passes to descendant resolution. */
  const DescendantDepth: int := 2

  /** One SQL condition on a `company` row. */
  datatype Condition =
    | BuildingIs(buildingId: int)                 // company.building_id == b
    | NameILike(needle: string)                   // company.name ILIKE '%needle%'
    | BuildingWithin(center: Point, radius: int)  // building_id IN (ST_DWithin subquery)
    | BuildingCoveredBy(ring: seq<Point>)         // building_id IN (ST_Covers subquery)
    | LinkedToAny(activityIds: set<int>)          // id IN (company_activity subquery)
    | And(left: Condition, right: Condition)      // left & right

  /** Case folding of a whole string, character by character. */
  function Fold(fold: char -> char, s: string): (r: string)
    ensures |r| == |s|
    ensures forall i :: 0 <= i < |s| ==> r[i] == fold(s[i])
  {
    seq(|s|, i requires 0 <= i < |s| => fold(s[i]))
  }

  /** `needle` occurs as a contiguous part of `hay`. */
  predicate Contains(hay: string, needle: string)
    decreases |hay|
  {
    needle <= hay || (|hay| > 0 && Contains(hay[1..], needle))
  }

  /** The coordinates of the company's building, when the building exists. */
  function BuildingPoint(store: Store, c: CompanyRow): (r: Option<Point>)
    ensures r.Some? <==> c.buildingId in store.buildings
  {
    if c.buildingId in store.buildings then Some(store.buildings[c.buildingId].coordinates) else None
  }

  /** Whether `cond` holds of company row `c` in `store`. */
  predicate Holds(store: Store, cond: Condition, c: CompanyRow)
    decreases cond
  {
    match cond
    case BuildingIs(b) => c.buildingId == b
    case NameILike(n) => Contains(Fold(store.fold, c.name), Fold(store.fold, n))
    case BuildingWithin(p, r) =>
      var bp := BuildingPoint(store, c);
      bp.Some? && store.geo.dwithin(bp.value, p, r)
    case BuildingCoveredBy(ring) =>
      var bp := BuildingPoint(store, c);
      bp.Some? && store.geo.covers(ring, bp.value)
    case LinkedToAny(ids) => exists a :: a in c.activities && a in ids
    case And(l, r) => Holds(store, l, c) && Holds(store, r, c)
  }

  /** An optional WHERE clause: no clause admits every row. */
  predicate HoldsWhere(store: Store, where: Option<Condition>, c: CompanyRow)
  {
    where.None? || Holds(store, where.value, c)
  }

  predicate HoldsAll(store: Store, cs: seq<Condition>, c: CompanyRow)
  {
    forall k :: 0 <= k < |cs| ==> Holds(store, cs[k], c)
  }

  // ---------------------------------------------------------------------------
  // Activation of each filter

  /** `if name:` -- None and the empty string add no condition. */
  predicate NameActive(f: SearchFilters)
  {
    f.name.Some? && f.name.value != ""
  }

  /** The radius mode needs lat, lng and radius all present. */
  predicate RadiusActive(f: SearchFilters)
  {
    f.lat.Some? && f.lng.Some? && f.radius.Some?
  }

  /** The rectangle mode needs all four corner values present. */
  predicate RectangleActive(f: SearchFilters)
  {
    f.latx.Some? && f.lngx.Some? && f.laty.Some? && f.lngy.Some?
  }

  /** `ST_MakePoint(lng, lat)`: longitude first. */
  function RadiusCenter(f: SearchFilters): (p: Point)
    requires RadiusActive(f)
    ensures p.x == f.lng.value && p.y == f.lat.value
  {
    MakePoint(f.lng.value, f.lat.value)
  }

  /** The closed ring (lngx,latx) -> (lngx,laty) -> (lngy,laty) -> (lngy,latx) -> (lngx,latx). */
  function RectangleRing(f: SearchFilters): (ring: seq<Point>)
    requires RectangleActive(f)
  {
    var lngx, latx, lngy, laty := f.lngx.value, f.latx.value, f.lngy.value, f.laty.value;
    [MakePoint(lngx, latx), MakePoint(lngx, laty), MakePoint(lngy, laty), MakePoint(lngy, latx), MakePoint(lngx, latx)]
  }

  /** `[activity_id]`, extended by the depth-2 descendants when children are requested. */
  function TargetActivities(store: Store, f: SearchFilters): (r: set<int>)
    requires f.activityId.Some?
    ensures f.activityId.value in r
    ensures !f.activityChildren ==> r == {f.activityId.value}
  {
    {f.activityId.value} +
    (if f.activityChildren then Descendants(store.activities, f.activityId.value, DescendantDepth) else {})
  }

  function BuildingConditions(f: SearchFilters): (cs: seq<Condition>)
  {
    if f.buildingId.Some? then [BuildingIs(f.buildingId.value)] else []
  }

  function NameConditions(f: SearchFilters): (cs: seq<Condition>)
  {
    if NameActive(f) then [NameILike(f.name.value)] else []
  }

  function RadiusConditions(f: SearchFilters): (cs: seq<Condition>)
  {
    if RadiusActive(f) then [BuildingWithin(RadiusCenter(f), f.radius.value)] else []
  }

  function RectangleConditions(f: SearchFilters): (cs: seq<Condition>)
  {
    if RectangleActive(f) then [BuildingCoveredBy(RectangleRing(f))] else []
  }

  function ActivityConditions(store: Store, f: SearchFilters): (cs: seq<Condition>)
  {
    if f.activityId.Some? then [LinkedToAny(TargetActivities(store, f))] else []
  }

  /**
   * The conditions `list_filtered` appends, in the order it appends them:
   * exactly one per active filter.
   */
  function Conditions(store: Store, f: SearchFilters): (cs: seq<Condition>)
    ensures |cs| == ActiveFilterCount(f)
  {
    BuildingConditions(f) + NameConditions(f) + RadiusConditions(f) + RectangleConditions(f)
    + ActivityConditions(store, f)
  }

  /** How many of the five filters are active. */
  function ActiveFilterCount(f: SearchFilters): (n: nat)
    ensures n <= 5
  {
    (if f.buildingId.Some? then 1 else 0)
    + (if NameActive(f) then 1 else 0)
    + (if RadiusActive(f) then 1 else 0)
    + (if RectangleActive(f) then 1 else 0)
    + (if f.activityId.Some? then 1 else 0)
  }

  // ---------------------------------------------------------------------------
  // Combining the list into one WHERE clause

  /** The failure `operator.and_(*conditions)` raises with other than two arguments. */
  datatype CompositionError = AndArity(arguments: nat)

  /**
   * The combination as written: `operator.and_` takes exactly two operands,
   * so a list of three or more conditions raises instead of conjoining.
   */
  function CombineAsWritten(cs: seq<Condition>): (r: Result<Option<Condition>, CompositionError>)
    ensures r.Failure? <==> |cs| >= 3
  {
    if |cs| > 1 then
      if |cs| == 2 then Success(Some(And(cs[0], cs[1]))) else Failure(AndArity(|cs|))
    else if |cs| > 0 then Success(Some(cs[0]))
    else Success(None)
  }

  /** Left-nested conjunction of a non-empty list: ((c0 & c1) & c2) & ... */
  function Conjoin(cs: seq<Condition>): (r: Condition)
    requires |cs| >= 1
    decreases |cs|
  {
    if |cs| == 1 then cs[0] else And(Conjoin(cs[..|cs| - 1]), cs[|cs| - 1])
  }

  /** The combination as intended: no clause, the single condition, or the conjunction of all. */
  function Combine(cs: seq<Condition>): (r: Option<Condition>)
    ensures r.None? <==> |cs| == 0
    ensures |cs| == 1 ==> r == Some(cs[0])
  {
    if |cs| == 0 then None else Some(Conjoin(cs))
  }

  /**
   * Company-level meaning of the filters, stated filter by filter: a company
   * is admitted iff it passes every active filter.
   */
  predicate Admits(store: Store, f: SearchFilters, c: CompanyRow)
  {
    && (f.buildingId.Some? ==> c.buildingId == f.buildingId.value)
    && (NameActive(f) ==> Contains(Fold(store.fold, c.name), Fold(store.fold, f.name.value)))
    && (RadiusActive(f) ==>
          var bp := BuildingPoint(store, c);
          bp.Some? && store.geo.dwithin(bp.value, RadiusCenter(f), f.radius.value))
    && (RectangleActive(f) ==>
          var bp := BuildingPoint(store, c);
          bp.Some? && store.geo.covers(RectangleRing(f), bp.value))
    && (f.activityId.Some? ==>
          exists a :: a in c.activities &&
            (a == f.activityId.value ||
             (f.activityChildren && a in Descendants(store.activities, f.activityId.value, DescendantDepth))))
  }

  // ---------------------------------------------------------------------------
  // Lemmas

  /** The conjunction holds iff every conjoined condition holds. */
  lemma {:induction false} ConjoinHoldsAll(store: Store, cs: seq<Condition>, c: CompanyRow)
    requires |cs| >= 1
    ensures Holds(store, Conjoin(cs), c) <==> HoldsAll(store, cs, c)
    decreases |cs|
  {
    if |cs| > 1 {
      var init := cs[..|cs| - 1];
      ConjoinHoldsAll(store, init, c);
      assert cs == init + [cs[|cs| - 1]];
      assert HoldsAll(store, cs, c) <==> HoldsAll(store, init, c) && Holds(store, cs[|cs| - 1], c);
    }
  }

  /** The combined WHERE clause admits a row iff every listed condition holds of it. */
  lemma CombineHoldsAll(store: Store, cs: seq<Condition>, c: CompanyRow)
    ensures HoldsWhere(store, Combine(cs), c) <==> HoldsAll(store, cs, c)
  {
    if |cs| >= 1 {
      ConjoinHoldsAll(store, cs, c);
    }
  }

  /** For at most two conditions the code as written and the intended combination coincide. */
  lemma CombineAsWrittenAgrees(cs: seq<Condition>)
    ensures |cs| <= 2 ==> CombineAsWritten(cs) == Success(Combine(cs))
    ensures |cs| >= 3 <==> CombineAsWritten(cs) == Failure(AndArity(|cs|))
  {
    if |cs| == 2 {
      assert Conjoin(cs[..1]) == cs[0];
    }
  }

  lemma HoldsAllConcat(store: Store, a: seq<Condition>, b: seq<Condition>, c: CompanyRow)
    ensures HoldsAll(store, a + b, c) <==> HoldsAll(store, a, c) && HoldsAll(store, b, c)
  {
    if HoldsAll(store, a, c) && HoldsAll(store, b, c) {
      forall k | 0 <= k < |a + b| ensures Holds(store, (a + b)[k], c) {
        if k >= |a| {
          assert (a + b)[k] == b[k - |a|];
        }
      }
    }
    if HoldsAll(store, a + b, c) {
      forall k | 0 <= k < |a| ensures Holds(store, a[k], c) {
        assert (a + b)[k] == a[k];
      }
      forall k | 0 <= k < |b| ensures Holds(store, b[k], c) {
        assert (a + b)[|a| + k] == b[k];
      }
    }
  }

  lemma HoldsAllSingleton(store: Store, x: Condition, c: CompanyRow)
    ensures HoldsAll(store, [x], c) <==> Holds(store, x, c)
  {
    assert [x][0] == x;
  }

  /** The composed WHERE clause admits exactly the companies that pass every active filter. */
  lemma {:induction false} ComposedConditionAdmits(store: Store, f: SearchFilters, c: CompanyRow)
    ensures HoldsWhere(store, Combine(Conditions(store, f)), c) <==> Admits(store, f, c)
  {
    var b, n, r, q, a := BuildingConditions(f), NameConditions(f), RadiusConditions(f),
                          RectangleConditions(f), ActivityConditions(store, f);
    if f.buildingId.Some? {
      HoldsAllSingleton(store, BuildingIs(f.buildingId.value), c);
    }
    if NameActive(f) {
      HoldsAllSingleton(store, NameILike(f.name.value), c);
      assert Holds(store, NameILike(f.name.value), c) ==
        Contains(Fold(store.fold, c.name), Fold(store.fold, f.name.value));
    }
    if f.activityId.Some? {
      HoldsAllSingleton(store, LinkedToAny(TargetActivities(store, f)), c);
    }
    if RadiusActive(f) {
      HoldsAllSingleton(store, BuildingWithin(RadiusCenter(f), f.radius.value), c);
    }
    if RectangleActive(f) {
      HoldsAllSingleton(store, BuildingCoveredBy(RectangleRing(f)), c);
    }
    CombineHoldsAll(store, Conditions(store, f), c);
    HoldsAllConcat(store, b + n + r + q, a, c);
    HoldsAllConcat(store, b + n + r, q, c);
    HoldsAllConcat(store, b + n, r, c);
    HoldsAllConcat(store, b, n, c);
    assert HoldsAll(store, b, c) <==> (f.buildingId.Some? ==> c.buildingId == f.buildingId.value);
    assert HoldsAll(store, n, c) <==>
      (NameActive(f) ==> Contains(Fold(store.fold, c.name), Fold(store.fold, f.name.value)));
    assert HoldsAll(store, r, c) <==>
      (RadiusActive(f) ==> Holds(store, BuildingWithin(RadiusCenter(f), f.radius.value), c));
    assert HoldsAll(store, q, c) <==>
      (RectangleActive(f) ==> Holds(store, BuildingCoveredBy(RectangleRing(f)), c));
    assert HoldsAll(store, a, c) <==>
      (f.activityId.Some? ==> Holds(store, LinkedToAny(TargetActivities(store, f)), c));
    if f.activityId.Some? {
      ActivityConditionMeaning(store, f, c);
    }
  }

  lemma {:induction false} ActivityConditionMeaning(store: Store, f: SearchFilters, c: CompanyRow)
    requires f.activityId.Some?
    ensures Holds(store, LinkedToAny(TargetActivities(store, f)), c) <==>
              exists a :: a in c.activities &&
                (a == f.activityId.value ||
                 (f.activityChildren && a in Descendants(store.activities, f.activityId.value, DescendantDepth)))
  {
  }

  /** As written, the search raises exactly when three or more filters are active. */
  lemma AsWrittenFailsFromThreeFilters(store: Store, f: SearchFilters)
    ensures CombineAsWritten(Conditions(store, f)).Failure? <==> ActiveFilterCount(f) >= 3
  {
    CombineAsWrittenAgrees(Conditions(store, f));
  }

  /** The rectangle's ring: closed, axis-aligned edges, corners paired as lngx/lngy with latx/laty. */
  lemma RectangleRingShape(f: SearchFilters)
    requires RectangleActive(f)
    ensures var ring := RectangleRing(f);
      && |ring| == 5 && ring[0] == ring[4]
      && ring[0] == Point(f.lngx.value, f.latx.value)
      && ring[1] == Point(f.lngx.value, f.laty.value)
      && ring[2] == Point(f.lngy.value, f.laty.value)
      && ring[3] == Point(f.lngy.value, f.latx.value)
      && (forall i :: 0 <= i < 4 ==> ring[i].x == ring[i + 1].x || ring[i].y == ring[i + 1].y)
  {
  }

  /** Each geo mode contributes a condition exactly when all of its inputs are present. */
  lemma GeoModesAllOrNothing(store: Store, f: SearchFilters)
    ensures (exists k :: 0 <= k < |Conditions(store, f)| && Conditions(store, f)[k].BuildingWithin?) <==> RadiusActive(f)
    ensures (exists k :: 0 <= k < |Conditions(store, f)| && Conditions(store, f)[k].BuildingCoveredBy?) <==> RectangleActive(f)
  {
    var cs := Conditions(store, f);
    var b := if f.buildingId.Some? then 1 else 0;
    var n := if NameActive(f) then 1 else 0;
    if RadiusActive(f) {
      assert cs[b + n].BuildingWithin?;
    }
    if RectangleActive(f) {
      var r := if RadiusActive(f) then 1 else 0;
      assert cs[b + n + r].BuildingCoveredBy?;
    }
  }

  /** An empty name adds no condition, exactly like an absent one. */
  lemma EmptyNameAddsNothing(store: Store, f: SearchFilters)
    ensures Conditions(store, f.(name := Some(""))) == Conditions(store, f.(name := None))
  {
  }

  /** `activity_children` without `activity_id` adds nothing. */
  lemma ChildrenFlagAloneAddsNothing(store: Store, f: SearchFilters)
    requires f.activityId.None?
    ensures Conditions(store, f.(activityChildren := true)) == Conditions(store, f.(activityChildren := false))
  {
  }

  /**
   * The activity filter targets the activity itself and, with children
   * requested, the activities one or two parent links below it.
   */
  lemma TargetActivitiesByAncestry(store: Store, f: SearchFilters, a: int)
    requires f.activityId.Some?
    ensures a in TargetActivities(store, f) <==>
              a == f.activityId.value ||
              (f.activityChildren &&
               (AncestorAt(store.activities, a, 1) == Some(f.activityId.value) ||
                AncestorAt(store.activities, a, 2) == Some(f.activityId.value)))
  {
    DescendantsAreAncestorWithin(store.activities, f.activityId.value, DescendantDepth, a);
    if f.activityChildren && a in Descendants(store.activities, f.activityId.value, DescendantDepth) {
      var k: nat :| 1 <= k <= 2 && AncestorAt(store.activities, a, k) == Some(f.activityId.value);
    }
  }
}
