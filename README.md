# Company directory core, modelled in Dafny

A model of the company search and lookup of a small company directory service (a FastAPI application over PostgreSQL/PostGIS), together with its API-key check and the construction of its database connection string.

The database is modelled as an in-memory store (`Schema.Store`):
- the `company` rows in storage order, each with the ids of its linked activities;
- `building`, keyed by id;
- `activity`, keyed by id;
- the `phone` table, in storage order;
- the spatial engine's two answers (`ST_DWithin`, `ST_Covers`) and the collation's case folding, both kept abstract.

The modules:
- **ActivityTree**: the bounded recursive query for an activity's descendants, computed level by level. It is proved equal to an independent definition: the activities whose ancestor `k` parent links up is the root, for `1 <= k <= max(1, depth)`.
- **Filters**: the conditions that each optional search parameter adds, and how they combine into one WHERE clause. `Admits` is a filter-by-filter reference meaning, and the combined clause is proved to agree with it.
- **Search**: `list_filtered` as a method. It builds the conditions list by appends, combines it, and runs the page query (LIMIT/OFFSET) and the count query with the same clause. It is proved equal to `SearchResult`, whose properties (total, page shape, offset independence) are lemmas.
- **Lookup**: `get_by_id`. It finds the company and assembles the aggregate with its building, its phones in id order and its activities sorted by id.
- **Auth**: the `Authorization: Token <key>` check and its two 401 refusals.
- **Config**: `assemble_dsn` and `Settings.db_dsn`, with a parser that proves the string can be read back field by field.
- **Demo**: the repository's demonstration activity tree (Food; Auto → Cars → Parts → Engine) and the search by an activity with its children, worked through the model.

## Model

| member | source | states |
|---|---|---|
| ActivityTree.Descendants | infrastructure/repositories/company.py:162-179 | every id the recursive query returns names an existing activity, on any data, cyclic or not |
| ActivityTree.LevelIsAncestorAt | infrastructure/repositories/company.py:163-173 | the CTE rows at level k (base rows at level 1, each recursive step one level deeper) are exactly the activities whose k-th ancestor is the root |
| ActivityTree.DescendantsAreAncestorWithin | infrastructure/repositories/company.py:162-179 | an activity is returned iff its ancestor k links up is the root for some k in 1..max(1, depth); level 1 is always produced and the recursion stops at `level < depth` |
| ActivityTree.RootExcluded | infrastructure/repositories/company.py:162-179 | on acyclic data the root itself is never returned |
| ActivityTree.LeafHasNoDescendants | infrastructure/repositories/company.py:163 | a root with no children yields an empty result at every depth |
| ActivityTree.LevelOfLeafEmpty | infrastructure/repositories/company.py:169-171 | below a childless root every level is empty |
| ActivityTree.MissingRootHasNoDescendants | infrastructure/repositories/company.py:163 | with parent ids resolving, a root id that is no activity yields an empty result |
| ActivityTree.TooDeepExcluded | infrastructure/repositories/company.py:169-171 | an activity with no chain of 1..max(1, depth) links to the root is not returned |
| Schema.MakePoint | infrastructure/repositories/company.py:102 | `ST_MakePoint(a, b)` builds the point whose first ordinate is a and second is b |
| Filters.RadiusCenter | infrastructure/repositories/company.py:101-102 | the radius centre has the longitude as its first ordinate and the latitude as its second |
| Filters.TargetActivities | infrastructure/repositories/company.py:131-136 | the target ids always include the activity itself, and are only that activity when children are not requested |
| Filters.Conditions | infrastructure/repositories/company.py:90-138 | the list holds exactly one condition per active filter |
| Filters.CombineAsWritten | infrastructure/repositories/company.py:140-145 | as written, the combination fails iff there are three or more conditions |
| Filters.Combine | infrastructure/repositories/company.py:140-145 | intended combination: no clause iff there are no conditions, and a single condition is used as is |
| Filters.ConjoinHoldsAll | infrastructure/repositories/company.py:140-142 | the conjunction of a non-empty condition list holds iff every listed condition holds |
| Filters.CombineHoldsAll | infrastructure/repositories/company.py:140-145 | the combined clause (none, the single condition, or the conjunction) admits a row iff every listed condition holds |
| Filters.CombineAsWrittenAgrees | infrastructure/repositories/company.py:140-145 | the combination as written agrees with the intended one for at most two conditions, and it fails with an arity error iff there are three or more |
| Filters.ComposedConditionAdmits | infrastructure/repositories/company.py:90-145 | the clause built from the filters admits a company iff it passes every active filter, each stated separately: building equality, case-insensitive substring, radius, rectangle, and a linked activity that is the target or, with children, one of its descendants |
| Filters.ActivityConditionMeaning | infrastructure/repositories/company.py:137-138 | the activity condition holds iff some linked activity of the company is among the target ids |
| Filters.AsWrittenFailsFromThreeFilters | infrastructure/repositories/company.py:140-142 | as written, the search fails exactly when three or more filters are active |
| Filters.RectangleRingShape | infrastructure/repositories/company.py:107-119 | the rectangle's ring is (lngx,latx), (lngx,laty), (lngy,laty), (lngy,latx), back to (lngx,latx): closed, five points, axis-aligned edges |
| Filters.GeoModesAllOrNothing | infrastructure/repositories/company.py:100-128 | a radius condition is present iff lat, lng and radius are all given; a rectangle condition is present iff all four corners are given |
| Filters.EmptyNameAddsNothing | infrastructure/repositories/company.py:96-98 | an empty name adds no condition, exactly like an absent one |
| Filters.ChildrenFlagAloneAddsNothing | infrastructure/repositories/company.py:130-138 | `activity_children` without `activity_id` changes nothing |
| Filters.TargetActivitiesByAncestry | infrastructure/repositories/company.py:131-136 | the target ids are the activity itself and, only with children requested, the activities one or two parent links below it |
| Search.Filter | infrastructure/repositories/company.py:140-148 | a WHERE clause keeps exactly the stored rows satisfying it, each as often as it is stored, and drops every other row |
| Search.Window | infrastructure/repositories/company.py:82-87 | LIMIT/OFFSET yields min(limit, max(0, n - offset)) rows, row i being row offset + i |
| Search.SearchResult | infrastructure/repositories/company.py:82-88 | the search is refused iff the page size or the offset is negative |
| Search.Summaries | infrastructure/repositories/company.py:152-159 | one summary (id, name, legal form) per fetched company, in order |
| Search.BuildConditions | infrastructure/repositories/company.py:90-138 | the appends produce exactly the conditions of the active filters, in source order |
| Search.ListFiltered | infrastructure/repositories/company.py:66-160 | the method returns exactly `SearchResult` at the `company_items_per_page` page size: a rejection for negative pagination, otherwise the page of admitted companies and their count |
| Search.CountIsFilterLength | infrastructure/repositories/company.py:147-151 | the count query counts exactly the rows the page query draws from |
| Search.SearchPageShape | infrastructure/repositories/company.py:140-159 | total is the number of all matches; the page is matches[offset..offset+page size], projected, of length min(page size, max(0, total - offset)); negative pagination is rejected |
| Search.PageItemsAreAdmitted | infrastructure/repositories/company.py:147-159 | every company on a page is a stored company that passes every active filter |
| Search.TotalIndependentOfOffset | infrastructure/repositories/company.py:82-88 | the total does not depend on the offset |
| Search.OffsetPastTotal | infrastructure/repositories/company.py:82-88 | an offset at or past the total gives an empty page and the same total |
| Search.UnfilteredSearch | infrastructure/repositories/company.py:140-145 | with no active filter every stored company matches, in storage order |
| Search.Matches | infrastructure/repositories/company.py:140-148 | the matches are exactly the stored companies that pass every active filter |
| Lookup.SortBy | infrastructure/repositories/company.py:62 | the result is sorted by the key and is a permutation of the input |
| Lookup.Insert | infrastructure/repositories/company.py:62 | inserting into a sorted list keeps it sorted and adds exactly the one element |
| Lookup.FindCompany | infrastructure/repositories/company.py:26-41 | nothing is found iff no stored company has the id; a found row is stored and has the id |
| Lookup.FoundCompanyIsOnly | infrastructure/repositories/company.py:38 | with the primary key holding, the found row is the only row with the id, the one `scalar_one_or_none` returns |
| Lookup.GetById | infrastructure/repositories/company.py:26-64 | the lookup gives None iff no stored company has the id, and otherwise a company with that id |
| Lookup.PhoneRowsOf | infrastructure/models/models.py:41-45 | the company's phones are exactly the phone rows whose company id matches, each as often as it is stored |
| Lookup.ToPhones | infrastructure/repositories/company.py:55 | one phone (id, number) per row, in order |
| Lookup.ToPhonesMembership | infrastructure/repositories/company.py:55 | a phone is in the list iff some row has its id and number |
| Lookup.LinkedActivities | infrastructure/models/models.py:46-49 | the activities reached through the links are exactly the linked ids that exist, each with its stored name and parent, each as often as it is linked |
| Lookup.GetByIdFields | infrastructure/repositories/company.py:43-54 | a found company carries the stored row's id, name, legal form and its building |
| Lookup.GetByIdPhones | infrastructure/models/models.py:41-45 | the phones are in ascending id order and are the company's phone rows, each exactly once, rearranged |
| Lookup.GetByIdActivities | infrastructure/repositories/company.py:56-63 | the activities are sorted by ascending id, are a permutation of the linked activities, and each is the stored activity with that id |
| Lookup.LinkedActivitiesUnique | infrastructure/models/models.py:14-19 | with each activity linked at most once (the composite key of the link table), the linked activities have distinct ids |
| Lookup.GetByIdIdsIncrease | infrastructure/repositories/company.py:55-63 | with the primary keys holding, the phones and the activities of a found company are strictly increasing in id |
| Lookup.BuildingCoordinatesRoundTrip | infrastructure/repositories/company.py:49-54 | corrected: a point stored as `ST_MakePoint(lng, lat)` reads back with the same latitude and longitude |
| Lookup.ToBuildingAsWritten | infrastructure/repositories/company.py:49-54 | as written, the building keeps its id and address, takes its latitude from the point's x and its longitude from its y |
| Lookup.ToBuilding | infrastructure/repositories/company.py:49-54 | corrected: the building keeps its id and address |
| Lookup.AsWrittenSwapsCoordinates | infrastructure/repositories/company.py:52-53 | as written, latitude comes from x and longitude from y, so every stored point comes back swapped; Moscow reads back with latitude 37.6173 |
| Auth.TokenAuth | api/dependencies.py:6-27 | with the `api_key` setting as the expected key, the dependency either accepts with True or refuses with status 401 and the `WWW-Authenticate: Token realm="Secured API"` header |
| Auth.AcceptsExactlyTheKey | api/dependencies.py:7-27 | the request passes iff the header is exactly `Token ` followed by the `api_key` setting |
| Auth.SchemeCheckedFirst | api/dependencies.py:11-16 | the refusal is the scheme error iff the header is missing or does not start with `Token `, whatever the key |
| Auth.TokenIsHeaderRest | api/dependencies.py:18-25 | past the scheme check the token is the header without its first six characters; a token other than the key is refused with "Invalid token" |
| Auth.SchemeIsCaseSensitive | api/dependencies.py:11-16 | `token <key>` and `Token<key>` are refused even with the right key, the first as a scheme error |
| Config.IntRoundTrip | config/utils.py:3 | the port's decimal rendering reads back as the port, negative ports included |
| Config.AssembleDsn | config/utils.py:1-3 | the string starts with `postgresql+asyncpg://` when async and `postgres://` otherwise |
| Config.DsnRoundTrip | config/utils.py:1-3 | the string reads back as exactly the scheme, user, password, host, port and database given, when the user and host hold no ':' and the password no '@' |
| Config.DsnEndsWithDatabase | config/utils.py:3 | the string always ends with `/` followed by the database name |
| Config.FieldsNotEscaped | config/utils.py:3 | fields are not escaped: user "u:x" with password "p" gives the same string as user "u" with password "x:p" |
| Config.DbDsn | config/settings.py:15-24 | the application's connection string always uses the asyncpg driver |
| Config.DbDsnRoundTrip | config/settings.py:15-24 | the application's connection string reads back as the configured fields with the async scheme |
| Config.DefaultDbDsn | config/settings.py:6-24 | the default settings connect through asyncpg as db_user/db_password to db_host:5432, database db_name |
| Demo.AutoDescendants | infrastructure/tests/utils.py:20-33 | two levels below Auto are Cars and Parts; Engine is not returned |
| Demo.FoodHasNoDescendants | infrastructure/tests/utils.py:20-33 | Food has no descendants |
| Demo.CycleStopsAtDepth | infrastructure/repositories/company.py:169-173 | on two activities that are each other's parent the query stops at depth 2 and returns both, the root included |
| Demo.AutoWithChildrenSearch | infrastructure/tests/test_company.py:119-126 | at the default page size, searching by Auto with children returns the Auto, Cars and Parts companies and a total of 3, not the Engine company |

## Left out

- Geodesic and polygon geometry: `ST_DWithin` on geography in metres and `ST_Covers` on the polygon are PostGIS float computations. They are abstract predicates in the store; only when each mode is active, its centre point and the ring's corner order are modelled.
- ILIKE: Unicode case folding is an abstract per-character function. `%`, `_` and `\` in the name are not escaped in the source, so they act as LIKE wildcards there; the model matches the name literally.
- Result order: the page query has no ORDER BY. The model uses the store's sequence as the order the database returns.
- Descendant ids are modelled as a set. UNION ALL can return an id more than once (only on cyclic data); multiplicity and order do not affect the `IN` condition that uses them.
- Floating point: coordinates are reals and the radius an integer, with no rounding.
- Lookup.GetById: requires every company's building to exist (the non-null foreign key); a company without coordinates (the nullable column) is not modelled.
- Lookup.GetById: with two rows sharing an id, `scalar_one_or_none` raises, while the model returns the first; the primary key rules this out (`Schema.KeysUnique`, under which `Lookup.FoundCompanyIsOnly` shows the found row is the only one).
- Lookup.GetById: uses the corrected coordinate mapping (`Lookup.ToBuilding`), not the one as written; see Findings.
- Search.ListFiltered: uses the intended conjunction of all conditions (`Filters.Combine`), not `operator.and_` as written; see Findings.
- Negative offset or page size: PostgreSQL refuses the query; the model returns `PaginationRejected` without modelling the database's error message.
- Asynchronous sessions, SQLAlchemy query objects, the dependency-injection container, the FastAPI routes and their 404 mapping, pydantic schemas, the use-case pass-throughs, and loading settings from the environment are not part of this model.
- Auth.TokenAuth: the settings are passed in directly rather than read from the request's application container; the request object is not modelled.
- Config.AssembleDsn: its contract states only the scheme prefix; the suffix and the full field layout are stated by `Config.DsnEndsWithDatabase` and `Config.DsnRoundTrip`.

## Findings

| source | as written | input that shows it | evidently intended | confidence | as-written member | corrected member |
|---|---|---|---|---|---|---|
| infrastructure/repositories/company.py:140-142 | `and_` is `operator.and_`, which takes exactly two arguments, yet it is called with all conditions unpacked | `building_id`, `name` and `activity_id` all given: three conditions, `and_` raises TypeError | all conditions conjoined into one WHERE clause | high, not executed | Filters.CombineAsWritten | Filters.Combine |
| infrastructure/repositories/company.py:52-53 | `latitude=point.x`, `longitude=point.y`, while every point is stored as `POINT(lng lat)` (`ST_MakePoint(lng, lat)` at line 102) | Moscow stored as `POINT(37.6173 55.7558)` comes back with latitude 37.6173 and longitude 55.7558 | latitude from y, longitude from x | high, not executed | Lookup.ToBuildingAsWritten | Lookup.ToBuilding |
