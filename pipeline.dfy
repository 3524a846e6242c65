/**
 * The batch run: for every country of the catalog and every city of that
 * country, in catalog order, skip the city when the repository already
 * holds a place identifier for it; otherwise resolve an identifier, fetch
 * the place detail and the boundaries and, only when both are present,
 * write one geometry row and one information row per boundary.
 *
 * The run is specified by functions on the repository's tables
 * (`CityPlan`, `RunCities`, `RunCatalog`); the methods `ProcessCity` and
 * `Run` drive a `PlaceRepository` and are proved to end in the state those
 * functions give.
 */
module Pipeline {
  import opened Wrappers
  import opened JsonValue
  import opened Geo
  import opened Schema
  import opened PlaceServices
  import opened Repo

  /** A city of the catalog; the region is the name used for queries and storage. */
  datatype City = City(region: string, name: string)

  /** A country of the catalog with its location hint and its cities. */
  datatype Country = Country(country: string, countryCode: string, latitude: real, longitude: real, cities: seq<City>)

  /** What the run talks to besides the repository: the three services and the WKB encoder. */
  datatype Upstream = Upstream(autocomplete: AutocompleteApi, details: DetailsApi, boundaries: BoundaryApi, wkb: Encoder)

  /** How the processing of one city ends. */
  datatype CityOutcome =
    | Skipped     // the repository already holds an identifier for it
    | Unresolved  // no identifier could be obtained; the city is logged
    | Incomplete  // the detail or the boundaries are missing; nothing is written
    | Written     // every boundary was written
    | Aborted     // a boundary without osm_id: the unwrap panics and the run ends

  // -------------------------------------------------------------- fan-out

  /** The position of the first boundary without an osm_id, `|bs|` when every boundary has one. */
  function FirstWithoutOsmId(bs: seq<Boundary>): (n: nat)
    ensures n <= |bs|
    ensures forall j :: 0 <= j < n ==> bs[j].0.osmId.Some?
    ensures n < |bs| ==> bs[n].0.osmId.None?
    decreases |bs|
  {
    if bs == [] || bs[0].0.osmId.None? then 0 else 1 + FirstWithoutOsmId(bs[1..])
  }

  /**
   * The inserts for the boundaries of one city in boundary order, a geometry
   * row and then an information row per boundary, up to the first boundary
   * without an osm_id; the flag says the fan-out stopped there.
   */
  function FanOut(placeId: string, boundingBox: Bytes, centerPoint: Bytes, bs: seq<Boundary>,
                  countryCode: string, countryName: string, region: string): (seq<Write>, bool)
    decreases |bs|
  {
    if bs == [] then ([], false)
    else if bs[0].0.osmId.None? then ([], true)
    else
      var rest := FanOut(placeId, boundingBox, centerPoint, bs[1..], countryCode, countryName, region);
      ([GeomWrite(GeomRowOf(placeId, bs[0].0.osmId.value, bs[0].1, boundingBox, centerPoint)),
        InfoWrite(InfoRowOf(placeId, bs[0].0, countryCode, countryName, region))] + rest.0,
       rest.1)
  }

  /**
   * The fan-out writes, for each boundary before the first one without an
   * osm_id, exactly one geometry row and then one information row; every
   * geometry row carries the same bounding box and centre, every information
   * row the city's country code and region. It stops early exactly when some
   * boundary has no osm_id.
   */
  lemma {:induction false} FanOutPairs(placeId: string, boundingBox: Bytes, centerPoint: Bytes, bs: seq<Boundary>,
                                       countryCode: string, countryName: string, region: string)
    ensures var (ws, stopped) := FanOut(placeId, boundingBox, centerPoint, bs, countryCode, countryName, region);
      var n := FirstWithoutOsmId(bs);
      |ws| == 2 * n && (stopped <==> n < |bs|) &&
      forall j :: 0 <= j < n ==>
        ws[2 * j] == GeomWrite(GeomRowOf(placeId, bs[j].0.osmId.value, bs[j].1, boundingBox, centerPoint)) &&
        ws[2 * j + 1] == InfoWrite(InfoRowOf(placeId, bs[j].0, countryCode, countryName, region))
    decreases |bs|
  {
    if bs != [] && bs[0].0.osmId.Some? {
      FanOutPairs(placeId, boundingBox, centerPoint, bs[1..], countryCode, countryName, region);
      var ws := FanOut(placeId, boundingBox, centerPoint, bs, countryCode, countryName, region).0;
      var rest := FanOut(placeId, boundingBox, centerPoint, bs[1..], countryCode, countryName, region).0;
      forall j | 1 <= j < FirstWithoutOsmId(bs)
        ensures ws[2 * j] == rest[2 * (j - 1)] && ws[2 * j + 1] == rest[2 * (j - 1) + 1]
      {
      }
    }
  }

  /**
   * Every insert carries the place identifier; every geometry row the given
   * bounding box and centre; every information row the city's key.
   */
  predicate WritesFor(ws: seq<Write>, placeId: string, boundingBox: Bytes, centerPoint: Bytes,
                      countryCode: string, region: string) {
    forall k :: 0 <= k < |ws| ==>
      (ws[k].GeomWrite? ==>
         ws[k].geomRow.googlePlaceId == placeId &&
         ws[k].geomRow.boundingBox == boundingBox && ws[k].geomRow.centerPoint == centerPoint) &&
      (ws[k].InfoWrite? ==>
         ws[k].infoRow.googlePlaceId == placeId && IsKeyedBy(ws[k].infoRow, countryCode, region))
  }

  /** All the fan-out's inserts are for the one place and city, with the shared bounding box and centre. */
  lemma FanOutRows(placeId: string, boundingBox: Bytes, centerPoint: Bytes, bs: seq<Boundary>,
                   countryCode: string, countryName: string, region: string)
    ensures WritesFor(FanOut(placeId, boundingBox, centerPoint, bs, countryCode, countryName, region).0,
                      placeId, boundingBox, centerPoint, countryCode, region)
  {
    FanOutPairs(placeId, boundingBox, centerPoint, bs, countryCode, countryName, region);
    var ws := FanOut(placeId, boundingBox, centerPoint, bs, countryCode, countryName, region).0;
    forall k | 0 <= k < |ws|
      ensures ws[k].GeomWrite? ==>
        ws[k].geomRow.googlePlaceId == placeId &&
        ws[k].geomRow.boundingBox == boundingBox && ws[k].geomRow.centerPoint == centerPoint
      ensures ws[k].InfoWrite? ==>
        ws[k].infoRow.googlePlaceId == placeId && IsKeyedBy(ws[k].infoRow, countryCode, region)
    {
      var j := k / 2;
      assert k == 2 * j || k == 2 * j + 1;
    }
  }

  // ---------------------------------------------------------- one city

  /** The inserts the processing of one city attempts against tables `t`, and how it ends. */
  function CityPlan(t: Tables, up: Upstream, country: Country, city: City): (seq<Write>, CityOutcome) {
    if FindPlaceId(t.cityInformation, country.countryCode, city.region).Some? then ([], Skipped)
    else match GetPlaceId(up.autocomplete, country.country, city.region, country.latitude, country.longitude)
      case None => ([], Unresolved)
      case Some(placeId) =>
        var detail := GetDetailByPlaceId(up.details, placeId);
        var boundaries := OsmBoundaries(up.boundaries, country.country, city.region, up.wkb);
        if boundaries.Some? && detail.Some? then
          var fan := FanOut(placeId, BoundingBox(detail.value.result, up.wkb), Center(detail.value.result, up.wkb),
                            boundaries.value, country.countryCode, country.country, city.region);
          (fan.0, if fan.1 then Aborted else Written)
        else ([], Incomplete)
  }

  /**
   * A city is written to only when it is not yet resolved, an identifier was
   * obtained and both the detail and a non-empty boundary list are present;
   * then every insert has that identifier, every geometry row the detail's
   * bounding box and centre, and every information row the city's key.
   */
  lemma CityPlanWrites(t: Tables, up: Upstream, country: Country, city: City)
    ensures var ws := CityPlan(t, up, country, city).0;
      ws != [] ==>
        FindPlaceId(t.cityInformation, country.countryCode, city.region).None? &&
        var placeId := GetPlaceId(up.autocomplete, country.country, city.region, country.latitude, country.longitude);
        placeId.Some? &&
        var detail := GetDetailByPlaceId(up.details, placeId.value);
        var boundaries := OsmBoundaries(up.boundaries, country.country, city.region, up.wkb);
        detail.Some? && boundaries.Some? && |boundaries.value| > 0 &&
        WritesFor(ws, placeId.value, BoundingBox(detail.value.result, up.wkb), Center(detail.value.result, up.wkb),
                  country.countryCode, city.region)
  {
    var ws := CityPlan(t, up, country, city).0;
    if ws != [] {
      var placeId := GetPlaceId(up.autocomplete, country.country, city.region, country.latitude, country.longitude).value;
      var result := GetDetailByPlaceId(up.details, placeId).value.result;
      var bs := OsmBoundaries(up.boundaries, country.country, city.region, up.wkb).value;
      FanOutRows(placeId, BoundingBox(result, up.wkb), Center(result, up.wkb), bs, country.countryCode, country.country, city.region);
    }
  }

  /** Once any information row of a city is accepted, the repository holds an identifier for that city. */
  lemma WrittenCityIsResolved(c: Constraints, t: Tables, up: Upstream, country: Country, city: City)
    requires AcceptedInfo(c, CityPlan(t, up, country, city).0) != []
    ensures FindPlaceId(Apply(c, t, CityPlan(t, up, country, city).0).cityInformation, country.countryCode, city.region).Some?
  {
    var ws := CityPlan(t, up, country, city).0;
    CityPlanWrites(t, up, country, city);
    AcceptedInfoFromWrites(c, ws);
    ApplyAppends(c, t, ws);
    var row := AcceptedInfo(c, ws)[0];
    assert InfoWrite(row) in ws;
    var k :| 0 <= k < |ws| && ws[k] == InfoWrite(row);
    assert IsKeyedBy(row, country.countryCode, city.region);
    var rows := Apply(c, t, ws).cityInformation;
    assert rows[|t.cityInformation|] == row;
  }

  /** A city the repository already has an identifier for is skipped: nothing is fetched and nothing is written. */
  lemma ResolvedCityIsSkipped(c: Constraints, t: Tables, up: Upstream, country: Country, city: City)
    requires FindPlaceId(t.cityInformation, country.countryCode, city.region).Some?
    ensures CityPlan(t, up, country, city) == ([], Skipped)
    ensures Apply(c, t, CityPlan(t, up, country, city).0) == t
  {
  }

  /**
   * Idempotence for one city: once processing has stored an information row
   * for it, processing it again against those tables or any later ones (the
   * tables only grow) writes nothing.
   */
  lemma ReprocessingWritesNothing(c: Constraints, t: Tables, later: Tables, up: Upstream, country: Country, city: City)
    requires AcceptedInfo(c, CityPlan(t, up, country, city).0) != []
    requires Apply(c, t, CityPlan(t, up, country, city).0).cityInformation <= later.cityInformation
    ensures CityPlan(later, up, country, city) == ([], Skipped)
  {
    var rows := Apply(c, t, CityPlan(t, up, country, city).0).cityInformation;
    WrittenCityIsResolved(c, t, up, country, city);
    assert later.cityInformation == rows + later.cityInformation[|rows|..];
    FindPlaceIdStable(rows, later.cityInformation[|rows|..], country.countryCode, city.region);
  }

  // ----------------------------------------------------------- the catalog

  /** The tables after processing the cities of one country in order, and whether a panic ended the run. */
  function RunCities(c: Constraints, t: Tables, up: Upstream, country: Country, cities: seq<City>): (Tables, bool)
    decreases |cities|
  {
    if cities == [] then (t, false)
    else
      var plan := CityPlan(t, up, country, cities[0]);
      var next := Apply(c, t, plan.0);
      if plan.1 == Aborted then (next, true) else RunCities(c, next, up, country, cities[1..])
  }

  /** The tables after processing every country of the catalog in order, and whether a panic ended the run. */
  function RunCatalog(c: Constraints, t: Tables, up: Upstream, countries: seq<Country>): (Tables, bool)
    decreases |countries|
  {
    if countries == [] then (t, false)
    else
      var r := RunCities(c, t, up, countries[0], countries[0].cities);
      if r.1 then r else RunCatalog(c, r.0, up, countries[1..])
  }

  /** The cities of a country that the tables hold no identifier for, in catalog order. */
  function PendingCities(t: Tables, countryCode: string, cities: seq<City>): (r: seq<City>)
    ensures forall k :: 0 <= k < |r| ==> r[k] in cities && FindPlaceId(t.cityInformation, countryCode, r[k].region).None?
    decreases |cities|
  {
    if cities == [] then []
    else
      (if FindPlaceId(t.cityInformation, countryCode, cities[0].region).None? then [cities[0]] else []) +
      PendingCities(t, countryCode, cities[1..])
  }

  /** The catalog restricted to the cities the tables hold no identifier for. */
  function Pending(t: Tables, countries: seq<Country>): (r: seq<Country>)
    ensures |r| == |countries|
    ensures forall i :: 0 <= i < |r| ==>
      r[i] == countries[i].(cities := PendingCities(t, countries[i].countryCode, countries[i].cities))
  {
    seq(|countries|, i requires 0 <= i < |countries| =>
      countries[i].(cities := PendingCities(t, countries[i].countryCode, countries[i].cities)))
  }

  /** Processing the cities of a country only adds information rows. */
  lemma {:induction false} RunCitiesGrows(c: Constraints, t: Tables, up: Upstream, country: Country, cities: seq<City>)
    ensures t.cityInformation <= RunCities(c, t, up, country, cities).0.cityInformation
    decreases |cities|
  {
    if cities != [] {
      var plan := CityPlan(t, up, country, cities[0]);
      ApplyAppends(c, t, plan.0);
      RunCitiesGrows(c, Apply(c, t, plan.0), up, country, cities[1..]);
    }
  }

  /** Cities resolved in `t` are skipped from any later tables on: only the pending ones are processed. */
  lemma {:induction false} RunCitiesOnlyPending(c: Constraints, t: Tables, s: Tables, up: Upstream, country: Country, cities: seq<City>)
    requires t.cityInformation <= s.cityInformation
    ensures RunCities(c, s, up, country, cities) == RunCities(c, s, up, country, PendingCities(t, country.countryCode, cities))
    decreases |cities|
  {
    if cities != [] {
      var city := cities[0];
      var pending := PendingCities(t, country.countryCode, cities);
      var tail := PendingCities(t, country.countryCode, cities[1..]);
      if FindPlaceId(t.cityInformation, country.countryCode, city.region).Some? {
        assert s.cityInformation == t.cityInformation + s.cityInformation[|t.cityInformation|..];
        FindPlaceIdStable(t.cityInformation, s.cityInformation[|t.cityInformation|..], country.countryCode, city.region);
        assert pending == tail;
        RunCitiesOnlyPending(c, t, s, up, country, cities[1..]);
      } else {
        assert pending == [city] + tail;
        assert pending[1..] == tail;
        var plan := CityPlan(s, up, country, city);
        ApplyAppends(c, s, plan.0);
        RunCitiesOnlyPending(c, t, Apply(c, s, plan.0), up, country, cities[1..]);
      }
    }
  }

  /** Processing a city depends on its country only through the country's name, code and location. */
  lemma {:induction false} RunCitiesHeader(c: Constraints, t: Tables, up: Upstream, country: Country, other: Country, cities: seq<City>)
    requires other == country.(cities := other.cities)
    ensures RunCities(c, t, up, country, cities) == RunCities(c, t, up, other, cities)
    decreases |cities|
  {
    if cities != [] {
      assert CityPlan(t, up, country, cities[0]) == CityPlan(t, up, other, cities[0]);
      RunCitiesHeader(c, Apply(c, t, CityPlan(t, up, country, cities[0]).0), up, country, other, cities[1..]);
    }
  }

  /**
   * Re-running the catalog from any tables extending `t` is the same as
   * running only the cities still pending in `t`: no city resolved in `t`
   * is fetched or written again.
   */
  lemma {:induction false} RerunOnlyPending(c: Constraints, t: Tables, s: Tables, up: Upstream, countries: seq<Country>)
    requires t.cityInformation <= s.cityInformation
    ensures RunCatalog(c, s, up, countries) == RunCatalog(c, s, up, Pending(t, countries))
    decreases |countries|
  {
    if countries != [] {
      var country := countries[0];
      var pending := Pending(t, countries);
      RunCitiesOnlyPending(c, t, s, up, country, country.cities);
      RunCitiesHeader(c, s, up, country, pending[0], pending[0].cities);
      var r := RunCities(c, s, up, country, country.cities);
      RunCitiesGrows(c, s, up, country, country.cities);
      assert pending[1..] == Pending(t, countries[1..]);
      RerunOnlyPending(c, t, r.0, up, countries[1..]);
    }
  }

  /** Every city of the catalog has an identifier in the tables. */
  predicate AllResolved(t: Tables, countries: seq<Country>) {
    forall i, j :: 0 <= i < |countries| && 0 <= j < |countries[i].cities| ==>
      FindPlaceId(t.cityInformation, countries[i].countryCode, countries[i].cities[j].region).Some?
  }

  /** A catalog whose countries list no city changes nothing. */
  lemma {:induction false} RunCatalogNoCities(c: Constraints, t: Tables, up: Upstream, countries: seq<Country>)
    requires forall i :: 0 <= i < |countries| ==> countries[i].cities == []
    ensures RunCatalog(c, t, up, countries) == (t, false)
    decreases |countries|
  {
    if countries != [] {
      RunCatalogNoCities(c, t, up, countries[1..]);
    }
  }

  /** A cities list with no pending city leaves nothing pending. */
  lemma {:induction false} PendingCitiesNone(t: Tables, countryCode: string, cities: seq<City>)
    requires forall j :: 0 <= j < |cities| ==> FindPlaceId(t.cityInformation, countryCode, cities[j].region).Some?
    ensures PendingCities(t, countryCode, cities) == []
    decreases |cities|
  {
    if cities != [] {
      PendingCitiesNone(t, countryCode, cities[1..]);
    }
  }

  /**
   * Idempotence of the run: when the tables a run ends with resolve every
   * city of the catalog, running the catalog again writes nothing and
   * completes.
   */
  lemma SecondRunIsNoOp(c: Constraints, t: Tables, up: Upstream, countries: seq<Country>)
    requires AllResolved(RunCatalog(c, t, up, countries).0, countries)
    ensures RunCatalog(c, RunCatalog(c, t, up, countries).0, up, countries) == (RunCatalog(c, t, up, countries).0, false)
  {
    var t1 := RunCatalog(c, t, up, countries).0;
    RerunOnlyPending(c, t1, t1, up, countries);
    var pending := Pending(t1, countries);
    forall i | 0 <= i < |pending| ensures pending[i].cities == [] {
      PendingCitiesNone(t1, countries[i].countryCode, countries[i].cities);
    }
    RunCatalogNoCities(c, t1, up, pending);
  }

  /** The catalog is processed in order: running `a + b` is running `a`, then, unless it panicked, `b`. */
  lemma {:induction false} RunCatalogConcat(c: Constraints, t: Tables, up: Upstream, a: seq<Country>, b: seq<Country>)
    ensures var ra := RunCatalog(c, t, up, a);
      RunCatalog(c, t, up, a + b) == if ra.1 then ra else RunCatalog(c, ra.0, up, b)
    decreases |a|
  {
    if a == [] {
      assert a + b == b;
    } else {
      assert (a + b)[0] == a[0] && (a + b)[1..] == a[1..] + b;
      var r := RunCities(c, t, up, a[0], a[0].cities);
      if !r.1 {
        RunCatalogConcat(c, r.0, up, a[1..], b);
      }
    }
  }

  /** The cities of a country are processed in order: running `a + b` is running `a`, then, unless it panicked, `b`. */
  lemma {:induction false} RunCitiesConcat(c: Constraints, t: Tables, up: Upstream, country: Country, a: seq<City>, b: seq<City>)
    ensures var ra := RunCities(c, t, up, country, a);
      RunCities(c, t, up, country, a + b) == if ra.1 then ra else RunCities(c, ra.0, up, country, b)
    decreases |a|
  {
    if a == [] {
      assert a + b == b;
    } else {
      assert (a + b)[0] == a[0] && (a + b)[1..] == a[1..] + b;
      var plan := CityPlan(t, up, country, a[0]);
      if plan.1 != Aborted {
        RunCitiesConcat(c, Apply(c, t, plan.0), up, country, a[1..], b);
      }
    }
  }

  // -------------------------------------------------------------- methods

  /** The inner loop of the run: one geometry row and one information row per boundary, until an osm_id is missing. */
  method WriteBoundaries(repo: PlaceRepository, placeId: string, boundingBox: Bytes, centerPoint: Bytes, bs: seq<Boundary>,
                         countryCode: string, countryName: string, region: string) returns (stopped: bool)
    modifies repo
    ensures var fan := FanOut(placeId, boundingBox, centerPoint, bs, countryCode, countryName, region);
      repo.State() == Apply(repo.constraints, old(repo.State()), fan.0) && stopped == fan.1
  {
    ghost var t0 := repo.State();
    ghost var done: seq<Write> := [];
    assert bs[0..] == bs;
    assert done + FanOut(placeId, boundingBox, centerPoint, bs, countryCode, countryName, region).0 ==
      FanOut(placeId, boundingBox, centerPoint, bs, countryCode, countryName, region).0;
    for i := 0 to |bs|
      invariant repo.State() == Apply(repo.constraints, t0, done)
      invariant FanOut(placeId, boundingBox, centerPoint, bs, countryCode, countryName, region) ==
        (done + FanOut(placeId, boundingBox, centerPoint, bs[i..], countryCode, countryName, region).0,
         FanOut(placeId, boundingBox, centerPoint, bs[i..], countryCode, countryName, region).1)
    {
      if bs[i].0.osmId.None? {
        assert done + [] == done;
        return true;
      }
      var osmId := bs[i].0.osmId.value;
      ghost var step := [GeomWrite(GeomRowOf(placeId, osmId, bs[i].1, boundingBox, centerPoint)),
                         InfoWrite(InfoRowOf(placeId, bs[i].0, countryCode, countryName, region))];
      ghost var before := repo.State();
      repo.CreatePlaceGeometry(placeId, osmId, bs[i].1, boundingBox, centerPoint);
      repo.CreateCityInformation(placeId, bs[i].0, countryCode, countryName, region);
      ApplyTwo(repo.constraints, before, step[0], step[1]);
      ApplyConcat(repo.constraints, t0, done, step);
      assert bs[i..][1..] == bs[i + 1..];
      ghost var rest := FanOut(placeId, boundingBox, centerPoint, bs[i + 1..], countryCode, countryName, region);
      assert FanOut(placeId, boundingBox, centerPoint, bs[i..], countryCode, countryName, region) == (step + rest.0, rest.1);
      assert done + (step + rest.0) == (done + step) + rest.0;
      done := done + step;
    }
    assert done + [] == done;
    return false;
  }

  /** The loop body of the run for one city, against the repository. */
  method ProcessCity(repo: PlaceRepository, up: Upstream, country: Country, city: City) returns (outcome: CityOutcome)
    modifies repo
    ensures var plan := CityPlan(old(repo.State()), up, country, city);
      repo.State() == Apply(repo.constraints, old(repo.State()), plan.0) && outcome == plan.1
  {
    var found := repo.GetPlaceId(country.countryCode, city.region);
    if found.Some? {
      return Skipped;
    }
    var placeId := GetPlaceId(up.autocomplete, country.country, city.region, country.latitude, country.longitude);
    if placeId.None? {
      return Unresolved;
    }
    var id := placeId.value;
    var detail := GetDetailByPlaceId(up.details, id);
    var boundaries := GetDetailByOsm(up.boundaries, country.country, city.region, up.wkb);
    if !(boundaries.Some? && detail.Some?) {
      return Incomplete;
    }
    var boundingBox := BoundingBox(detail.value.result, up.wkb);
    var centerPoint := Center(detail.value.result, up.wkb);
    var stopped := WriteBoundaries(repo, id, boundingBox, centerPoint, boundaries.value,
                                   country.countryCode, country.country, city.region);
    outcome := if stopped then Aborted else Written;
  }

  /** The whole run over the catalog; `aborted` says a panic ended it early. */
  method Run(repo: PlaceRepository, up: Upstream, countries: seq<Country>) returns (aborted: bool)
    modifies repo
    ensures (repo.State(), aborted) == RunCatalog(repo.constraints, old(repo.State()), up, countries)
  {
    for i := 0 to |countries|
      invariant RunCatalog(repo.constraints, old(repo.State()), up, countries) ==
        RunCatalog(repo.constraints, repo.State(), up, countries[i..])
    {
      var country := countries[i];
      ghost var start := repo.State();
      for j := 0 to |country.cities|
        invariant RunCities(repo.constraints, start, up, country, country.cities) ==
          RunCities(repo.constraints, repo.State(), up, country, country.cities[j..])
      {
        var outcome := ProcessCity(repo, up, country, country.cities[j]);
        assert country.cities[j..][1..] == country.cities[j + 1..];
        if outcome == Aborted {
          assert RunCatalog(repo.constraints, old(repo.State()), up, countries) == (repo.State(), true);
          return true;
        }
      }
      assert countries[i..][1..] == countries[i + 1..];
    }
    return false;
  }
}
