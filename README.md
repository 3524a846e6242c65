# osm: boundary geometry for a city catalog, in Dafny

The program is a batch job. It reads a catalog of countries and their cities. For every city that the database does not yet know, it:

1. resolves a place identifier through a place-search autocomplete service;
2. fetches the place detail (centre and viewport) for that identifier;
3. asks a boundary-search service for the city's GeoJSON outline;
4. keeps only the features whose `category` is `"boundary"`;
5. stores one `city_geom` row and one `city_information` row per kept boundary.

This project models that core and proves what it promises:

- the GeoJSON filter (`parse_geojson`, `parse_geo_feature`);
- the autocomplete selection and query text of `GoogleServices::get_place_id`;
- the centre and viewport shapes of `Result::center` and `Result::bounding_box`, with the serde-derived response and `Properties` types;
- the `PlaceRepository` as an in-memory class holding the two tables;
- the per-country, per-city loop of `main`, whose key property is idempotence when the run is repeated.

Modules, one per file:

| file | module | models |
|---|---|---|
| `wrappers.dfy` | `Wrappers` | `Option` with `:-` support |
| `json_value.dfy` | `JsonValue` | JSON values and serde's rules for required and `Option` fields |
| `geo.dfy` | `Geo` | points, `Rect`, polygons, geometry kinds; the WKB encoder as a parameter |
| `schema.dfy` | `Schema` | `services/json.rs`: response types, their decoding, `center`, `bounding_box` |
| `place_services.dfy` | `PlaceServices` | `services/place_services.rs`: query text, autocomplete selection, the boundary filter |
| `repo.dfy` | `Repo` | `services/repo.rs`: the rows, the tables, the `PlaceRepository` class |
| `pipeline.dfy` | `Pipeline` | `main.rs` lines 28-94: the run, specified by functions and carried out by methods |
| `scenario.dfy` | `Scenario` | one worked run: Bangkok, Thailand, with concrete service answers |

The model's main decisions:

- **Upstream services are parameters.** Each one is a function from its request to its answer, so "no upstream change between runs" means the same functions.
  - `None` stands for a transport failure or an unparsable body.
  - Autocomplete and detail answer with a JSON value, decoded by the model.
  - Boundary search answers with an already parsed GeoJSON document.
- **The WKB encoder is an uninterpreted parameter** (`Encoder = Shape -> Bytes`). It is assumed to succeed, as the `expect` calls do.
- **The database decides each insert.** A `Constraints` value says, row by row, whether an insert is accepted. A rejected insert is only logged, so in the model it leaves the tables unchanged.
- **State is specified by functions and driven by methods.** Every state change is specified by functions on `Tables`:
  - `Step` and `Apply` for inserts;
  - `CityPlan` for one city;
  - `RunCities` and `RunCatalog` for the loops.

  The methods `PlaceRepository.Create*`, `WriteBoundaries`, `ProcessCity` and `Run` are proved to end in exactly the state those functions give.
- **`osm_id.unwrap()` (main.rs:65) is a panic.** The fan-out of a city stops at the first kept boundary without an `osm_id`, and the whole run ends there (`CityOutcome.Aborted`, `Run` returns `true`). This is neither a precondition nor a skip. `FanOutPairs` states exactly which rows are written before the stop.
- **Integer widths are explicit.** `usize` holds values below 2^64 and `i16` is range-checked when decoding. The `as i64` casts in repo.rs:70, 108 and 110 wrap around (`AsI64`).

Behaviour of the code worth noting:

- **Property decoding is strict per bag.** `serde_json::from_str::<Properties>` fails the whole bag when one present field has the wrong type (a string `osm_id`, say), and the feature is then dropped (`PropertiesDecodeExactly`). Only absent and `null` fields become `None`.
- **A kept boundary without `osm_id` panics** at the `unwrap` on main.rs:65, ending the run.
- **A degenerate rectangle's ring repeats corners.** The four corners of the bounding polygon are distinct only for a rectangle of non-zero width and height (`RectPolygonCornersDistinct`).
- **Lookups and storage use `region`.** Both lookups and the stored `city` column use the catalog entry's `region`, not its `name` (main.rs:35, 44, 58, 82).

## Model

| member | source | states |
|---|---|---|
| JsonValue.OptionalField | src/services/json.rs:58-69 | an `Option` field decodes to an error exactly when it is present, not null and ill-typed, and to `None` exactly when it is absent or null |
| Geo.RectNew | src/services/json.rs:34 | `Rect::new` gives a normalised rectangle that contains both corners, lies inside every rectangle containing them, and takes its coordinates from them |
| Geo.RectNewSymmetric | src/services/json.rs:34 | `Rect::new` does not depend on the order of its two corners |
| Geo.RectToPolygon | src/services/json.rs:35 | the polygon of a rectangle has a closed exterior ring of 5 positions, no holes, and its first four positions are exactly the rectangle's corners |
| Geo.RectPolygonExtent | src/services/json.rs:34-35 | the extent of that ring is exactly the rectangle |
| Geo.RectPolygonWinding | src/services/json.rs:35 | the ring winds counter-clockwise: its signed area is the rectangle's area |
| Geo.RectPolygonCornersDistinct | src/services/json.rs:34-35 | the four corners of the ring are pairwise distinct if and only if the rectangle is not degenerate |
| Schema.DecodePlacesAllOrNothing | src/services/json.rs:5-13 | a prediction list decodes iff every prediction does, and then element by element in order |
| Schema.AutoCompleteRoundTrip | src/services/json.rs:5-13 | an autocomplete response decodes back to itself, with the order of its predictions |
| Schema.GeometryResponseRoundTrip | src/services/json.rs:15-23 | a place detail response decodes back to itself |
| Schema.PropertiesRoundTrip | src/services/json.rs:58-69 | a property bag written from `Properties` decodes to the same properties; `placeType` is written under the key `type` |
| Schema.PropertiesDecodeExactly | src/services/json.rs:58-69 | a bag decodes iff each of the eight keys is absent, null or well-typed; each field is then `None` or the key's value, with `type` filling `placeType` |
| Schema.PropertiesMissingKey | src/services/json.rs:58-69 | removing any key from a decodable bag leaves it decodable, with that field `None` and every other field unchanged |
| Schema.PropertiesEmptyBag | src/services/json.rs:58-69 | the empty bag decodes to properties with every field `None` |
| Schema.PropertiesUnknownKey | src/services/json.rs:64-65 | adding a key `Properties` does not name, `place_type` included, does not change the decoding |
| Schema.CenterPoint | src/services/json.rs:26-28 | the centre point has x = `location.lng` and y = `location.lat` |
| Schema.ViewportRect | src/services/json.rs:31-34 | the viewport rectangle is normalised, contains the NE and SW corners with x = lng and y = lat, and spans their minimum to their maximum in each axis, whichever corner is larger |
| Schema.ViewportPolygon | src/services/json.rs:35 | the viewport polygon is a closed ring of 5 positions whose first four are the rectangle's corners and whose extent is the viewport rectangle |
| Schema.BoundingBoxCornerOrder | src/services/json.rs:31-37 | swapping the viewport's two corners gives the same encoded bounding box |
| PlaceServices.SearchText | src/services/place_services.rs:22 | the query text is the city, then `", "`, then the country |
| PlaceServices.SearchTextInjective | src/services/place_services.rs:22 | for city names without a comma, the query text determines both city and country |
| PlaceServices.SelectPlaceId | src/services/place_services.rs:33-44 | a decoded response gives an identifier iff it has a prediction, and that identifier is the first prediction's |
| PlaceServices.GetPlaceId | src/services/place_services.rs:14-48 | `get_place_id` queries with the city's search text and gives an identifier iff the body arrives, decodes and lists a prediction; the identifier is the first one's |
| PlaceServices.GetPlaceIdFirstPrediction | src/services/place_services.rs:33-47 | a body listing predictions gives `None` when the list is empty and otherwise the first prediction's identifier |
| PlaceServices.GetDetailByPlaceId | src/services/place_services.rs:50-65 | the detail is present iff the body arrives and decodes, and then it is the decoded response |
| PlaceServices.QuickCollection | src/services/place_services.rs:152-153 | a feature's geometry becomes the single member of a collection |
| PlaceServices.ParseGeoFeature | src/services/place_services.rs:141-163 | both parts are present or both absent; they are present iff the bag is present, decodes and has category exactly `"boundary"`; then they are the decoded properties and the encoded collection |
| PlaceServices.KeptIsBoundarySubsequence | src/services/place_services.rs:123-131 | a FeatureCollection keeps exactly its passing members, at strictly increasing positions, each the boundary of the member at that position |
| PlaceServices.KeptLength | src/services/place_services.rs:123-131 | the number of kept boundaries equals the number of passing members |
| PlaceServices.KeptAppend | src/services/place_services.rs:125-130 | the filter works member by member: a concatenated collection keeps the concatenation of what each part keeps |
| PlaceServices.BoundariesOf | src/services/place_services.rs:113-139 | a result that is present is never empty, and every boundary in it has category `"boundary"` |
| PlaceServices.ParseGeoJson | src/services/place_services.rs:113-139 | a bare Geometry gives `None`; a Feature gives its boundary iff it passes; a FeatureCollection gives the kept members, or `None` when no member passes |
| PlaceServices.GetDetailByOsm | src/services/place_services.rs:71-96 | the boundary search is queried with the city's search text; a failed search gives `None`; a present result is non-empty |
| Repo.AsI64 | src/services/repo.rs:70 | `usize as i64` is congruent to its input modulo 2^64 and equals it exactly when the input is below 2^63 |
| Repo.GeomRowOf | src/services/repo.rs:68-73 | the geometry row carries the place id, the wrapped osm_id, the polygon, the bounding box and the centre, in that column order |
| Repo.InfoRowOf | src/services/repo.rs:90-119 | the information row carries the place id, the eight properties (osm_id and place_id wrapped to i64, present iff present), and the country code, country name and city |
| Repo.FindPlaceId | src/services/repo.rs:44-58 | an identifier is found iff some row has that country code and city, and it is the identifier of such a row |
| Repo.FindPlaceIdStable | src/services/repo.rs:44-58 | inserting more rows never changes an identifier already found |
| Repo.ApplyAppends | src/services/repo.rs:60-127 | a sequence of inserts only appends: each table ends with the rows accepted for it, in write order |
| Repo.ApplyConcat | src/services/repo.rs:60-127 | inserting two sequences one after the other is inserting their concatenation |
| Repo.AcceptedInfoFromWrites | src/services/repo.rs:82-127 | every accepted information row was written and accepted, and an accepted information insert always yields a row |
| Repo.PlaceRepository.constructor | src/services/repo.rs:36-40 | a new repository has two empty tables |
| Repo.PlaceRepository.GetPlaceId | src/services/repo.rs:44-58 | the identifier is found iff a `city_information` row matches the country code and city, and comes from a matching row |
| Repo.PlaceRepository.CreatePlaceGeometry | src/services/repo.rs:60-80 | appends the geometry row when the database accepts it and otherwise changes nothing; `city_information` is untouched |
| Repo.PlaceRepository.CreateCityInformation | src/services/repo.rs:82-127 | appends the information row when the database accepts it and otherwise changes nothing; `city_geom` is untouched |
| Pipeline.FirstWithoutOsmId | src/main.rs:64-65 | the position of the first boundary without an osm_id: every earlier boundary has one |
| Pipeline.FanOutPairs | src/main.rs:64-85 | before the first boundary without an osm_id, each boundary yields exactly one geometry insert followed by one information insert, in boundary order; the fan-out stops early iff such a boundary exists |
| Pipeline.FanOutRows | src/main.rs:61-84 | every insert of a city carries its place id; every geometry row carries the same bounding box and centre; every information row carries the city's country code and region |
| Pipeline.CityPlanWrites | src/main.rs:35-85 | a city is written to only when it is unresolved, an id was obtained and both the detail and a non-empty boundary list are present; then all inserts belong to that id and city |
| Pipeline.ResolvedCityIsSkipped | src/main.rs:35-38 | a city the repository already resolves is skipped and nothing is written |
| Pipeline.WrittenCityIsResolved | src/main.rs:35-84 | once an information row of a city is accepted, the repository resolves that city |
| Pipeline.ReprocessingWritesNothing | src/main.rs:35-84 | after a city has an accepted information row, processing it against those or any larger tables writes nothing |
| Pipeline.PendingCities | src/main.rs:34-38 | every pending city is from the list and unresolved in the tables |
| Pipeline.RunCitiesGrows | src/main.rs:34-93 | processing a country's cities only adds information rows |
| Pipeline.RunCitiesOnlyPending | src/main.rs:34-38 | from tables that extend `t`, processing a country's cities is the same as processing only those still pending in `t` |
| Pipeline.RunCitiesHeader | src/main.rs:29-32 | a country's cities are processed using only its name, code and location |
| Pipeline.RerunOnlyPending | src/main.rs:28-94 | a re-run from tables that extend `t` equals a run over only the cities pending in `t` |
| Pipeline.RunCatalogNoCities | src/main.rs:28-34 | a catalog listing no city changes nothing |
| Pipeline.SecondRunIsNoOp | src/main.rs:28-94 | when a run's final tables resolve every catalog city, running again writes nothing and completes |
| Pipeline.RunCatalogConcat | src/main.rs:28 | countries are processed in catalog order: running `a + b` is running `a`, then `b` unless it panicked |
| Pipeline.RunCitiesConcat | src/main.rs:34 | cities are processed in list order: running `a + b` is running `a`, then `b` unless it panicked |
| Pipeline.WriteBoundaries | src/main.rs:64-85 | the inner loop ends with the repository in the state of the fan-out's inserts, and reports whether it stopped at a boundary without an osm_id |
| Pipeline.ProcessCity | src/main.rs:35-92 | the loop body ends with the repository in the state of the city's plan, and returns the plan's outcome |
| Pipeline.Run | src/main.rs:28-94 | the run ends with the repository in the state of the catalog run, and reports whether a panic ended it |
| Scenario.BangkokRun | src/main.rs:28-94 | Bangkok, Thailand, from empty tables, with one prediction `abc123`, one detail and one boundary with osm_id 999: exactly one geometry row and one information row are stored |

## Left out

- **HTTP transport.** The `reqwest` requests, URL assembly with the API key and the `types`/`location` parameters, and `constant_headers` are not modelled. They are network I/O, so each service is a function parameter from its request to its answer. The location hint is passed through.
- **GeoJSON text parsing.** `GeoJson::from_str` is not modelled: the boundary service answers with a parsed document. The serde re-serialisation of a feature's property bag is modelled as decoding the bag directly.
- **`quick_collection`.** It is a foreign library call. It is modelled as wrapping the feature's one geometry in a one-member collection, or an empty collection when the feature has no geometry. The model does not encode that `expect`'s failure.
- **Well-Known Binary encoding.** `wkb::geom_to_wkb` is left abstract, and its `expect`s are taken to succeed. No property of the bytes, such as being non-empty, is claimed.
- **Postgres.** `sea_query` SQL building, `sqlx` execution and the geometry casts are replaced by in-memory tables. Read failures of `get_place_id` (`.ok()`) are not modelled: the model's read always sees the tables.
- **Acceptance of inserts.** Whether the database accepts an insert depends only on the row; acceptance that depends on the current tables (a unique index) or changes over time (a connection lost in one run but not the next) is not modelled. No proved property relies on this restriction.
- Geo.RectToPolygon: the corner order of `geo_types::Rect::to_polygon` is a library detail the source does not pin to a version; the model assumes the counter-clockwise order starting at `(max.x, min.y)`. Releases that list the corners clockwise from `min` would change `RectPolygonWinding` (the sign of the area), but not the closed five-position ring, its corners or its extent.
- Repo.FindPlaceId: when several rows match, SQL picks an unspecified row; the model takes the earliest inserted. Every matching row holds an identifier, so the skip decision does not depend on the choice.
- **Environment, connection and catalog loading.** `src/core/environment.rs`, `src/core/postgres_connection.rs` and the loading of `cities.yaml` (main.rs:16-26) are configuration and file I/O. They are not part of this model. `Country` and `City` are plain datatypes, as in `src/core/json.rs`.
- **Concurrency and floating point.** The tokio runtime and `async` are not modelled: the run is sequential, as its awaits make it. Coordinates and `importance` are reals: f64 rounding and non-finite values are not modelled.
- **Serde number forms.** A float-valued JSON number for a `usize` or `i16` field is refused in the model, as serde_json does. Serde's alternative sequence form for structs is not modelled.
- **Unreachable match arm.** The `Some` arm at main.rs:51 cannot be reached after the skip at lines 36-38. `CityPlan` goes straight to the autocomplete call.
- **Logging.** Log output is not modelled: the unresolved-city message at main.rs:88-91 and the insert-failure messages at repo.rs:77-79 and 124-126.
