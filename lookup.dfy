/**
 * `CompanyRepository.get_by_id`: the company with the given id, with its
 * building, its phones in ascending id order and its activities sorted by
 * ascending id; absence is `None`, not an error.
 */
module Lookup {
  import opened Wrappers
  import opened Schema

  datatype Phone = Phone(id: int, number: string)

  datatype Building = Building(id: int, address: string, latitude: real, longitude: real)

  datatype Activity = Activity(id: int, name: string, parentId: Option<int>)

  datatype Company = Company(
    id: int,
    name: string,
    legalForm: string,
    building: Building,
    phones: seq<Phone>,
    activities: seq<Activity>)

  // ---------------------------------------------------------------------------
  // Stable sort by an integer key (Python's `sorted(..., key=...)`)

  ghost predicate SortedBy<T>(s: seq<T>, key: T -> int)
  {
    forall i, j :: 0 <= i < j < |s| ==> key(s[i]) <= key(s[j])
  }

  /** Inserts `x` before the first element whose key is not smaller. */
  function Insert<T>(x: T, s: seq<T>, key: T -> int): (r: seq<T>)
    requires SortedBy(s, key)
    ensures SortedBy(r, key)
    ensures multiset(r) == multiset(s) + multiset{x}
    ensures forall y :: y in r ==> y == x || y in s
    decreases |s|
  {
    if s == [] then [x]
    else if key(x) <= key(s[0]) then [x] + s
    else
      var rest := Insert(x, s[1..], key);
      assert s == [s[0]] + s[1..];
      assert forall y :: y in rest ==> key(s[0]) <= key(y);
      [s[0]] + rest
  }

  /** Insertion sort: sorted by `key` and a permutation of `s`. */
  function SortBy<T>(s: seq<T>, key: T -> int): (r: seq<T>)
    ensures SortedBy(r, key)
    ensures multiset(r) == multiset(s)
    decreases |s|
  {
    if s == [] then []
    else
      assert s == [s[0]] + s[1..];
      Insert(s[0], SortBy(s[1..], key), key)
  }

  // ---------------------------------------------------------------------------
  // Unique keys

  /** No two elements of `s` share a key. */
  ghost predicate UniqueKeys<T>(s: seq<T>, key: T -> int)
  {
    forall i, j :: 0 <= i < j < |s| ==> key(s[i]) != key(s[j])
  }

  lemma {:induction false} UniqueKeysOccurOnce<T>(s: seq<T>, key: T -> int, x: T)
    requires UniqueKeys(s, key)
    ensures multiset(s)[x] <= 1
    decreases |s|
  {
    if s != [] {
      assert s == [s[0]] + s[1..];
      UniqueKeysOccurOnce(s[1..], key, x);
      if s[0] == x {
        assert forall j :: 1 <= j < |s| ==> s[j] != x;
        assert x !in s[1..];
      }
    }
  }

  lemma OccurOnceNoRepeats<T>(s: seq<T>)
    requires forall x :: multiset(s)[x] <= 1
    ensures forall i, j :: 0 <= i < j < |s| ==> s[i] != s[j]
  {
    forall i, j | 0 <= i < j < |s| ensures s[i] != s[j] {
      var x := s[i];
      assert s == s[..j] + s[j..];
      assert multiset(s) == multiset(s[..j]) + multiset(s[j..]);
      assert x in s[..j];
      assert multiset(s[..j])[x] >= 1;
      assert multiset(s)[x] <= 1;
      assert multiset(s)[x] == multiset(s[..j])[x] + multiset(s[j..])[x];
      assert multiset(s[j..])[x] == 0;
      assert s[j..][0] == s[j];
    }
  }

  /** Rearranging or dropping elements keeps the keys unique. */
  lemma SubMultisetUniqueKeys<T>(r: seq<T>, s: seq<T>, key: T -> int)
    requires multiset(r) <= multiset(s)
    requires UniqueKeys(s, key)
    ensures UniqueKeys(r, key)
  {
    forall x ensures multiset(r)[x] <= 1 {
      UniqueKeysOccurOnce(s, key, x);
    }
    OccurOnceNoRepeats(r);
    forall i, j | 0 <= i < j < |r| ensures key(r[i]) != key(r[j]) {
      assert r[i] in multiset(r) && r[j] in multiset(r);
      var a :| 0 <= a < |s| && s[a] == r[i];
      var b :| 0 <= b < |s| && s[b] == r[j];
      assert a != b;
    }
  }

  // ---------------------------------------------------------------------------
  // The aggregate

  /** The first stored company with the given id (`id` is the primary key). */
  function FindCompany(rows: seq<CompanyRow>, id: int): (r: Option<CompanyRow>)
    ensures r.None? <==> forall c :: c in rows ==> c.id != id
    ensures r.Some? ==> r.value in rows && r.value.id == id
    decreases |rows|
  {
    if rows == [] then None
    else if rows[0].id == id then Some(rows[0])
    else FindCompany(rows[1..], id)
  }

  /**
   * The building as `get_by_id` builds it: `latitude=point.x`,
   * `longitude=point.y`.
   */
  function ToBuildingAsWritten(id: int, row: BuildingRow): (b: Building)
    ensures b.id == id && b.address == row.address
    ensures b.latitude == row.coordinates.x && b.longitude == row.coordinates.y
  {
    Building(id, row.address, row.coordinates.x, row.coordinates.y)
  }

  /**
   * The building with the coordinates read the way they are stored
   * (`POINT(longitude latitude)`): latitude from `y`, longitude from `x`.
   */
  function ToBuilding(id: int, row: BuildingRow): (b: Building)
    ensures b.id == id && b.address == row.address
  {
    Building(id, row.address, row.coordinates.y, row.coordinates.x)
  }

  function PhoneKey(p: PhoneRow): (k: int) { p.id }

  function ActivityKey(a: Activity): (k: int) { a.id }

  function LinkKey(activityId: int): (k: int) { activityId }

  /** The company's phone rows (`phone.company_id == id`), in storage order. */
  function PhoneRowsOf(phones: seq<PhoneRow>, companyId: int): (r: seq<PhoneRow>)
    ensures forall p :: p in r <==> p in phones && p.companyId == companyId
    ensures forall p :: multiset(r)[p] == if p.companyId == companyId then multiset(phones)[p] else 0
    ensures multiset(r) <= multiset(phones)
    decreases |phones|
  {
    if phones == [] then []
    else
      assert phones == [phones[0]] + phones[1..];
      (if phones[0].companyId == companyId then [phones[0]] else []) + PhoneRowsOf(phones[1..], companyId)
  }

  function ToPhones(rows: seq<PhoneRow>): (r: seq<Phone>)
    ensures |r| == |rows|
    ensures forall i :: 0 <= i < |rows| ==> r[i] == Phone(rows[i].id, rows[i].number)
  {
    seq(|rows|, i requires 0 <= i < |rows| => Phone(rows[i].id, rows[i].number))
  }

  /** The `Activity` built from activity row `id`. */
  function ActivityOf(acts: map<int, ActivityRow>, id: int): (a: Activity)
    requires id in acts
    ensures a.id == id
  {
    Activity(id, acts[id].name, acts[id].parentId)
  }

  /** The activity rows reached through the company's links, in link order. */
  function LinkedActivities(acts: map<int, ActivityRow>, links: seq<int>): (r: seq<Activity>)
    ensures |r| <= |links|
    ensures forall a :: a in r <==> a.id in links && a.id in acts && a == ActivityOf(acts, a.id)
    ensures forall a :: multiset(r)[a] ==
              if a.id in acts && a == ActivityOf(acts, a.id) then multiset(links)[a.id] else 0
    decreases |links|
  {
    if links == [] then []
    else
      assert links == [links[0]] + links[1..];
      (if links[0] in acts then [ActivityOf(acts, links[0])] else []) + LinkedActivities(acts, links[1..])
  }

  /** `get_by_id`: `None` exactly for an unknown id, otherwise the full aggregate of that company. */
  function GetById(store: Store, id: int): (r: Option<Company>)
    requires BuildingsResolve(store)
    ensures r.None? <==> forall c :: c in store.companies ==> c.id != id
    ensures r.Some? ==> r.value.id == id
  {
    match FindCompany(store.companies, id)
    case None => None
    case Some(c) =>
      Some(Company(
        c.id, c.name, c.legalForm,
        ToBuilding(c.buildingId, store.buildings[c.buildingId]),
        ToPhones(SortBy(PhoneRowsOf(store.phones, c.id), PhoneKey)),
        SortBy(LinkedActivities(store.activities, c.activities), ActivityKey)))
  }

  // ---------------------------------------------------------------------------
  // Lemmas

  /**
   * A found company carries the stored row's fields and its building, with
   * the coordinates read as stored.
   */
  lemma GetByIdFields(store: Store, id: int)
    requires BuildingsResolve(store)
    requires GetById(store, id).Some?
    ensures var co := GetById(store, id).value;
      exists c :: c in store.companies && c.id == id && co.id == id
        && co.name == c.name && co.legalForm == c.legalForm
        && co.building == ToBuilding(c.buildingId, store.buildings[c.buildingId])
  {
    var c := FindCompany(store.companies, id).value;
    assert c in store.companies;
  }

  lemma {:induction false} ToPhonesMembership(rows: seq<PhoneRow>, p: Phone)
    ensures p in ToPhones(rows) <==> exists q :: q in rows && p == Phone(q.id, q.number)
  {
    var phones := ToPhones(rows);
    if p in phones {
      var i :| 0 <= i < |phones| && phones[i] == p;
      var q := rows[i];
      assert q in rows && p == Phone(q.id, q.number);
    }
    if exists q :: q in rows && p == Phone(q.id, q.number) {
      var q :| q in rows && p == Phone(q.id, q.number);
      var i :| 0 <= i < |rows| && rows[i] == q;
      assert phones[i] == p;
    }
  }

  /**
   * The phones are the company's phone rows, each exactly once, rearranged
   * into ascending id order.
   */
  lemma GetByIdPhones(store: Store, id: int)
    requires BuildingsResolve(store)
    requires GetById(store, id).Some?
    ensures var phones := GetById(store, id).value.phones;
      && (forall i, j :: 0 <= i < j < |phones| ==> phones[i].id <= phones[j].id)
      && (forall p :: p in phones <==> exists q :: q in store.phones && q.companyId == id && p == Phone(q.id, q.number))
      && |phones| == |PhoneRowsOf(store.phones, id)|
      && (exists rows :: multiset(rows) == multiset(PhoneRowsOf(store.phones, id)) && phones == ToPhones(rows))
  {
    var c := FindCompany(store.companies, id).value;
    var rows := PhoneRowsOf(store.phones, c.id);
    var sorted := SortBy(rows, PhoneKey);
    var phones := GetById(store, id).value.phones;
    assert phones == ToPhones(sorted);
    assert |sorted| == |multiset(sorted)| == |multiset(rows)| == |rows|;
    assert multiset(sorted) == multiset(PhoneRowsOf(store.phones, id)) && phones == ToPhones(sorted);
    assert SortedBy(sorted, PhoneKey);
    forall p ensures p in phones <==> exists q :: q in store.phones && q.companyId == id && p == Phone(q.id, q.number) {
      ToPhonesMembership(sorted, p);
      if exists q :: q in sorted && p == Phone(q.id, q.number) {
        var q :| q in sorted && p == Phone(q.id, q.number);
        assert q in multiset(sorted);
        assert q in rows;
      }
      if exists q :: q in store.phones && q.companyId == id && p == Phone(q.id, q.number) {
        var q :| q in store.phones && q.companyId == id && p == Phone(q.id, q.number);
        assert q in rows;
        assert q in multiset(rows);
        assert q in sorted;
      }
    }
  }

  /** The activities are exactly the linked activity rows, sorted by ascending id. */
  lemma GetByIdActivities(store: Store, id: int)
    requires BuildingsResolve(store)
    requires GetById(store, id).Some?
    ensures var acts := GetById(store, id).value.activities;
      && (forall i, j :: 0 <= i < j < |acts| ==> acts[i].id <= acts[j].id)
      && (exists c :: c in store.companies && c.id == id &&
            multiset(acts) == multiset(LinkedActivities(store.activities, c.activities)))
      && (forall a :: a in acts ==> a.id in store.activities && a == ActivityOf(store.activities, a.id))
  {
    var c := FindCompany(store.companies, id).value;
    var linked := LinkedActivities(store.activities, c.activities);
    var acts := GetById(store, id).value.activities;
    assert acts == SortBy(linked, ActivityKey);
    assert SortedBy(acts, ActivityKey);
    assert c in store.companies;
    forall a | a in acts ensures a.id in store.activities && a == ActivityOf(store.activities, a.id) {
      assert a in multiset(acts);
      assert a in linked;
    }
  }

  /** Each existing activity linked once yields exactly one activity, so the ids are unique. */
  lemma LinkedActivitiesUnique(acts: map<int, ActivityRow>, links: seq<int>)
    requires forall i, j :: 0 <= i < j < |links| ==> links[i] != links[j]
    ensures UniqueKeys(LinkedActivities(acts, links), ActivityKey)
  {
    var r := LinkedActivities(acts, links);
    assert UniqueKeys(links, LinkKey);
    forall a: Activity ensures multiset(r)[a] <= 1 {
      if a.id in acts && a == ActivityOf(acts, a.id) {
        UniqueKeysOccurOnce(links, LinkKey, a.id);
      }
    }
    OccurOnceNoRepeats(r);
    forall i, j | 0 <= i < j < |r| ensures ActivityKey(r[i]) != ActivityKey(r[j]) {
      assert r[i] in r && r[j] in r;
      assert r[i] == ActivityOf(acts, r[i].id) && r[j] == ActivityOf(acts, r[j].id);
    }
  }

  /**
   * With the primary key holding, the row the lookup finds is the only one
   * with that id, the row `scalar_one_or_none` returns.
   */
  lemma FoundCompanyIsOnly(store: Store, id: int)
    requires KeysUnique(store)
    requires FindCompany(store.companies, id).Some?
    ensures forall d :: d in store.companies && d.id == id ==> d == FindCompany(store.companies, id).value
  {
    var c := FindCompany(store.companies, id).value;
    var i :| 0 <= i < |store.companies| && store.companies[i] == c;
    forall d | d in store.companies && d.id == id ensures d == c {
      var j :| 0 <= j < |store.companies| && store.companies[j] == d;
      assert i == j;
    }
  }

  /**
   * With the primary keys holding, the phones and the activities of a found
   * company are strictly increasing in id.
   */
  lemma GetByIdIdsIncrease(store: Store, id: int)
    requires BuildingsResolve(store)
    requires KeysUnique(store)
    requires GetById(store, id).Some?
    ensures var co := GetById(store, id).value;
      && (forall i, j :: 0 <= i < j < |co.phones| ==> co.phones[i].id < co.phones[j].id)
      && (forall i, j :: 0 <= i < j < |co.activities| ==> co.activities[i].id < co.activities[j].id)
  {
    var co := GetById(store, id).value;
    var c := FindCompany(store.companies, id).value;
    var rows := PhoneRowsOf(store.phones, c.id);
    var sortedRows := SortBy(rows, PhoneKey);
    assert UniqueKeys(store.phones, PhoneKey);
    SubMultisetUniqueKeys(sortedRows, store.phones, PhoneKey);
    SortedUniqueIdsIncrease(sortedRows, PhoneKey);
    assert co.phones == ToPhones(sortedRows);
    var linked := LinkedActivities(store.activities, c.activities);
    LinkedActivitiesUnique(store.activities, c.activities);
    var sortedActs := SortBy(linked, ActivityKey);
    SubMultisetUniqueKeys(sortedActs, linked, ActivityKey);
    SortedUniqueIdsIncrease(sortedActs, ActivityKey);
    assert co.activities == sortedActs;
  }

  /**
   * With primary keys unique, the sorted phone and activity lists are
   * strictly increasing in id.
   */
  lemma SortedUniqueIdsIncrease<T>(s: seq<T>, key: T -> int)
    requires SortedBy(s, key)
    requires forall i, j :: 0 <= i < j < |s| ==> key(s[i]) != key(s[j])
    ensures forall i, j :: 0 <= i < j < |s| ==> key(s[i]) < key(s[j])
  {
  }

  /**
   * A point stored as the radius filter builds it, `ST_MakePoint(lng, lat)`,
   * is reported back with the same latitude and longitude.
   */
  lemma BuildingCoordinatesRoundTrip(id: int, address: string, lat: real, lng: real)
    ensures var b := ToBuilding(id, BuildingRow(address, MakePoint(lng, lat)));
      b.latitude == lat && b.longitude == lng
  {
  }

  /**
   * As written, `get_by_id` reports the stored longitude as the latitude:
   * Moscow stored as `POINT(37.6173 55.7558)` comes back with latitude 37.6173.
   */
  lemma AsWrittenSwapsCoordinates(id: int, address: string)
    ensures var b := ToBuildingAsWritten(id, BuildingRow(address, MakePoint(37.6173, 55.7558)));
      b.latitude == 37.6173 && b.longitude == 55.7558
    ensures forall lat: real, lng: real {:trigger MakePoint(lng, lat)} ::
      var b := ToBuildingAsWritten(id, BuildingRow(address, MakePoint(lng, lat)));
      b.latitude == lng && b.longitude == lat
  {
  }
}
