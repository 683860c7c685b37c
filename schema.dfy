/**
 * The relational store the repository queries, as in-memory values.
 * Each table is keyed by its primary key, except `company`, whose rows are
 * kept in the storage order in which an unordered SELECT returns them.
 */
module Schema {
  import opened Wrappers

  /** A PostGIS point: `x` is the first ordinate of `POINT(x y)`, `y` the second. */
  datatype Point = Point(x: real, y: real)

  /** `ST_MakePoint(a, b)` builds `POINT(a b)`. */
  function MakePoint(a: real, b: real): (p: Point)
    ensures p.x == a && p.y == b
  {
    Point(a, b)
  }

  /**
   * The spatial engine's answers, left abstract: `dwithin(p, q, r)` is
   * `ST_DWithin(p, q, r)` on geography (metres), `covers(ring, p)` is
   * `ST_Covers(polygon(ring), p)`.
   */
  datatype Geo = Geo(dwithin: (Point, Point, int) -> bool, covers: (seq<Point>, Point) -> bool)

  /**
   * A `company` row together with the activity ids of its `company_activity`
   * links, in the order the association table returns them.
   */
  datatype CompanyRow = CompanyRow(id: int, name: string, legalForm: string, buildingId: int, activities: seq<int>)

  datatype BuildingRow = BuildingRow(address: string, coordinates: Point)

  datatype ActivityRow = ActivityRow(name: string, parentId: Option<int>)

  datatype PhoneRow = PhoneRow(id: int, companyId: int, number: string)

  /**
   * The whole store. `phones` is the `phone` table in storage order. `fold` is the collation's per-character case folding
   * that ILIKE applies to both sides.
   */
  datatype Store = Store(
    companies: seq<CompanyRow>,
    buildings: map<int, BuildingRow>,
    activities: map<int, ActivityRow>,
    phones: seq<PhoneRow>,
    geo: Geo,
    fold: char -> char)

  /** `company.building_id` is a non-null foreign key into `building`. */
  ghost predicate BuildingsResolve(store: Store)
  {
    forall c :: c in store.companies ==> c.buildingId in store.buildings
  }

  /**
   * The primary keys hold: company ids and phone ids are unique, and a
   * company links an activity at most once (the composite key of
   * `company_activity`).
   */
  ghost predicate KeysUnique(store: Store)
  {
    && (forall i, j :: 0 <= i < j < |store.companies| ==> store.companies[i].id != store.companies[j].id)
    && (forall i, j :: 0 <= i < j < |store.phones| ==> store.phones[i].id != store.phones[j].id)
    && (forall c :: c in store.companies ==>
          forall i, j :: 0 <= i < j < |c.activities| ==> c.activities[i] != c.activities[j])
  }
}
