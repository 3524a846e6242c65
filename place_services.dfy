/**
 * The two upstream clients: the place-search autocomplete and detail
 * lookups, and the boundary search whose GeoJSON answer is filtered down to
 * administrative-boundary features. The HTTP exchanges are parameters: a
 * service is a function from its request to the body it answers with, `None`
 * standing for a transport failure or a body that is not JSON (or, for the
 * boundary search, not GeoJSON).
 */
module PlaceServices {
  import opened Wrappers
  import opened JsonValue
  import opened Geo
  import opened Schema

  /** Autocomplete: (input text, latitude, longitude) to the response body. */
  type AutocompleteApi = (string, real, real) -> Option<Value>

  /** Place detail: place identifier to the response body. */
  type DetailsApi = string -> Option<Value>

  /** Boundary search: query text to the parsed GeoJSON document. */
  type BoundaryApi = string -> Option<GeoJson>

  /** A GeoJSON Feature (section 3.2 of RFC 7946): an optional property bag and an optional geometry. */
  datatype Feature = Feature(properties: Option<JsonObject>, geometry: Option<Shape>)

  /** A GeoJSON document: a bare Geometry, a Feature or a FeatureCollection (section 3 of RFC 7946). */
  datatype GeoJson =
    | GeometryDoc(geometry: Shape)
    | FeatureDoc(feature: Feature)
    | FeatureCollectionDoc(features: seq<Feature>)

  /** A retained boundary: its properties and its encoded geometry collection. */
  type Boundary = (Properties, Bytes)

  // ---------------------------------------------------------- query text

  /** The text both services are queried with: `"{city}, {country}"`. */
  function SearchText(city: string, country: string): (q: string)
    ensures |q| == |city| + 2 + |country|
    ensures q[..|city|] == city && q[|city|..|city| + 2] == ", " && q[|city| + 2..] == country
  {
    city + ", " + country
  }

  /** When city names hold no comma, the query text determines the city and the country. */
  lemma SearchTextInjective(city1: string, country1: string, city2: string, country2: string)
    requires ',' !in city1 && ',' !in city2
    requires SearchText(city1, country1) == SearchText(city2, country2)
    ensures city1 == city2 && country1 == country2
  {
    FirstComma(city1, country1);
    FirstComma(city2, country2);
  }

  /** In the query text of a comma-free city name, the first comma follows the city name. */
  lemma FirstComma(city: string, country: string)
    requires ',' !in city
    ensures SearchText(city, country)[|city|] == ','
    ensures forall i :: 0 <= i < |city| ==> SearchText(city, country)[i] != ','
  {
  }

  // -------------------------------------------------------- autocomplete

  /** The identifier chosen from a decoded autocomplete response: the first prediction's, if any. */
  function SelectPlaceId(response: Option<AutoCompleteResponse>): (id: Option<string>)
    ensures id.Some? <==> response.Some? && |response.value.predictions| > 0
    ensures id.Some? ==> id.value == response.value.predictions[0].placeId
  {
    match response
    case None => None
    case Some(r) => if |r.predictions| == 0 then None else Some(r.predictions[0].placeId)
  }

  /**
   * `GoogleServices::get_place_id`: queries autocomplete for the city near the
   * given location and returns the first prediction's identifier; a transport
   * failure, a body that does not decode or an empty list gives `None`.
   */
  function GetPlaceId(autocomplete: AutocompleteApi, countryName: string, cityName: string,
                      latitude: real, longitude: real): (id: Option<string>)
    ensures var body := autocomplete(SearchText(cityName, countryName), latitude, longitude);
      id.Some? <==>
        body.Some? && DecodeAutoCompleteResponse(body.value).Some? &&
        |DecodeAutoCompleteResponse(body.value).value.predictions| > 0
    ensures var body := autocomplete(SearchText(cityName, countryName), latitude, longitude);
      id.Some? ==> id.value == DecodeAutoCompleteResponse(body.value).value.predictions[0].placeId
  {
    match autocomplete(SearchText(cityName, countryName), latitude, longitude)
    case None => None
    case Some(body) => SelectPlaceId(DecodeAutoCompleteResponse(body))
  }

  /** An autocomplete body listing predictions yields the first one's identifier, whatever follows it. */
  lemma GetPlaceIdFirstPrediction(autocomplete: AutocompleteApi, countryName: string, cityName: string,
                                  latitude: real, longitude: real, predictions: seq<Place>)
    requires autocomplete(SearchText(cityName, countryName), latitude, longitude) ==
      Some(EncodeAutoCompleteResponse(AutoCompleteResponse(predictions)))
    ensures GetPlaceId(autocomplete, countryName, cityName, latitude, longitude) ==
      if predictions == [] then None else Some(predictions[0].placeId)
  {
    AutoCompleteRoundTrip(AutoCompleteResponse(predictions));
  }

  /** `GoogleServices::get_detail_by_place_id`: the decoded detail response, `None` on any failure. */
  function GetDetailByPlaceId(details: DetailsApi, placeId: string): (r: Option<GeometryResponse>)
    ensures r.Some? <==> details(placeId).Some? && DecodeGeometryResponse(details(placeId).value).Some?
    ensures r.Some? ==> r == DecodeGeometryResponse(details(placeId).value)
  {
    match details(placeId)
    case None => None
    case Some(body) => DecodeGeometryResponse(body)
  }

  // -------------------------------------------------- boundary filtering

  /** The feature's property bag decodes and its category is exactly `"boundary"`. */
  predicate IsBoundary(f: Feature) {
    f.properties.Some? &&
    DecodeProperties(f.properties.value).Some? &&
    DecodeProperties(f.properties.value).value.category == Some("boundary")
  }

  /** `quick_collection` on a single feature: its geometry as the one member of a collection (none if it has no geometry). */
  function QuickCollection(f: Feature): (s: Shape)
    ensures s.CollectionShape? && |s.members| <= 1
    ensures f.geometry.Some? ==> s.members == [f.geometry.value]
  {
    CollectionShape(if f.geometry.Some? then [f.geometry.value] else [])
  }

  /**
   * `parse_geo_feature`: the decoded properties and the encoded geometry
   * collection of a boundary feature, and `(None, None)` for any other.
   */
  function ParseGeoFeature(f: Feature, wkb: Encoder): (res: (Option<Properties>, Option<Bytes>))
    ensures res.0.Some? <==> res.1.Some?
    ensures res.0.Some? <==> IsBoundary(f)
    ensures res.0.Some? ==> res.0 == DecodeProperties(f.properties.value) && res.1 == Some(wkb(QuickCollection(f)))
  {
    if f.properties.Some? then
      match DecodeProperties(f.properties.value)
      case Some(properties) =>
        if properties.category == Some("boundary") then (Some(properties), Some(wkb(QuickCollection(f))))
        else (None, None)
      case None => (None, None)
    else (None, None)
  }

  /** The boundary a boundary feature contributes. */
  function BoundaryOf(f: Feature, wkb: Encoder): Boundary
    requires IsBoundary(f)
  {
    (DecodeProperties(f.properties.value).value, wkb(QuickCollection(f)))
  }

  /** What a FeatureCollection's loop has collected after the given members. */
  function Kept(fs: seq<Feature>, wkb: Encoder): seq<Boundary>
    decreases |fs|
  {
    if fs == [] then []
    else
      var res := ParseGeoFeature(fs[|fs| - 1], wkb);
      Kept(fs[..|fs| - 1], wkb) + (if res.0.Some? && res.1.Some? then [(res.0.value, res.1.value)] else [])
  }

  /** The positions of the boundary members, in increasing order. */
  function BoundaryIndices(fs: seq<Feature>): seq<nat>
    decreases |fs|
  {
    if fs == [] then []
    else BoundaryIndices(fs[..|fs| - 1]) + (if IsBoundary(fs[|fs| - 1]) then [|fs| - 1] else [])
  }

  /** The positions of the boundary members, as a set. */
  function BoundarySet(fs: seq<Feature>): set<nat> {
    set i: nat | i < |fs| && IsBoundary(fs[i])
  }

  /**
   * A FeatureCollection keeps exactly its boundary members, in their original
   * order: the kept list is the boundaries at strictly increasing positions,
   * and those positions are exactly the boundary members'.
   */
  lemma {:induction false} KeptIsBoundarySubsequence(fs: seq<Feature>, wkb: Encoder)
    ensures var idx := BoundaryIndices(fs);
      |idx| == |Kept(fs, wkb)| &&
      (forall j :: 0 <= j < |idx| ==> idx[j] < |fs| && IsBoundary(fs[idx[j]]) && Kept(fs, wkb)[j] == BoundaryOf(fs[idx[j]], wkb)) &&
      (forall j, k :: 0 <= j < k < |idx| ==> idx[j] < idx[k]) &&
      (forall i :: 0 <= i < |fs| ==> (IsBoundary(fs[i]) <==> i in idx))
    decreases |fs|
  {
    if fs != [] {
      var n := |fs| - 1;
      var init := fs[..n];
      KeptIsBoundarySubsequence(init, wkb);
      assert forall i :: 0 <= i < n ==> fs[i] == init[i];
    }
  }

  /** A FeatureCollection keeps as many boundaries as it has boundary members. */
  lemma {:induction false} KeptLength(fs: seq<Feature>, wkb: Encoder)
    ensures |Kept(fs, wkb)| == |BoundarySet(fs)|
    decreases |fs|
  {
    if fs != [] {
      var n := |fs| - 1;
      KeptLength(fs[..n], wkb);
      KeptStep(fs, wkb);
      BoundarySetStep(fs);
    }
  }

  /** The last member adds one boundary to what the others keep exactly when it is a boundary. */
  lemma KeptStep(fs: seq<Feature>, wkb: Encoder)
    requires fs != []
    ensures |Kept(fs, wkb)| == |Kept(fs[..|fs| - 1], wkb)| + if IsBoundary(fs[|fs| - 1]) then 1 else 0
  {
  }

  /** The boundary positions of a sequence are those of all but its last member, plus the last if it is a boundary. */
  lemma BoundarySetStep(fs: seq<Feature>)
    requires fs != []
    ensures var n := |fs| - 1;
      n !in BoundarySet(fs[..n]) &&
      BoundarySet(fs) == BoundarySet(fs[..n]) + if IsBoundary(fs[n]) then {n} else {}
  {
    var n := |fs| - 1;
    var init := fs[..n];
    var extra: set<nat> := if IsBoundary(fs[n]) then {n} else {};
    forall i: nat ensures i in BoundarySet(fs) <==> i in BoundarySet(init) + extra {
      if i < n {
        assert fs[i] == init[i];
      }
    }
  }

  /** A FeatureCollection is filtered member by member: concatenated collections keep the concatenation of what each keeps. */
  lemma {:induction false} KeptAppend(a: seq<Feature>, b: seq<Feature>, wkb: Encoder)
    ensures Kept(a + b, wkb) == Kept(a, wkb) + Kept(b, wkb)
    decreases |b|
  {
    if b != [] {
      var n := |b| - 1;
      assert (a + b)[..|a + b| - 1] == a + b[..n];
      KeptAppend(a, b[..n], wkb);
    } else {
      assert a + b == a;
    }
  }

  /**
   * The specification of `parse_geojson`: a bare Geometry gives `None`, a
   * Feature a one-element list when it is a boundary, a FeatureCollection its
   * kept members; an empty result is `None`.
   */
  function BoundariesOf(json: GeoJson, wkb: Encoder): (r: Option<seq<Boundary>>)
    ensures r.Some? ==> |r.value| > 0
    ensures r.Some? ==> forall k :: 0 <= k < |r.value| ==> r.value[k].0.category == Some("boundary")
  {
    match json
    case GeometryDoc(_) => None
    case FeatureDoc(f) =>
      var res := ParseGeoFeature(f, wkb);
      if res.0.Some? && res.1.Some? then Some([(res.0.value, res.1.value)]) else None
    case FeatureCollectionDoc(fs) =>
      KeptIsBoundarySubsequence(fs, wkb);
      var v := Kept(fs, wkb);
      if v == [] then None else Some(v)
  }

  /** `parse_geojson`: the three-way dispatch, with the FeatureCollection filtered by a loop. */
  method ParseGeoJson(json: GeoJson, wkb: Encoder) returns (r: Option<seq<Boundary>>)
    ensures r == BoundariesOf(json, wkb)
    ensures json.GeometryDoc? ==> r == None
    ensures json.FeatureDoc? ==>
      r == if IsBoundary(json.feature) then Some([BoundaryOf(json.feature, wkb)]) else None
    ensures json.FeatureCollectionDoc? ==>
      r == if BoundarySet(json.features) == {} then None else Some(Kept(json.features, wkb))
  {
    match json {
      case GeometryDoc(_) =>
        r := None;
      case FeatureDoc(f) =>
        var res := ParseGeoFeature(f, wkb);
        if res.0.Some? && res.1.Some? {
          r := Some([(res.0.value, res.1.value)]);
        } else {
          r := None;
        }
      case FeatureCollectionDoc(fs) =>
        var v: seq<Boundary> := [];
        for i := 0 to |fs|
          invariant v == Kept(fs[..i], wkb)
        {
          var res := ParseGeoFeature(fs[i], wkb);
          if res.0.Some? && res.1.Some? {
            v := v + [(res.0.value, res.1.value)];
          }
          assert fs[..i + 1][..i] == fs[..i];
        }
        assert fs[..|fs|] == fs;
        KeptLength(fs, wkb);
        if v == [] {
          r := None;
        } else {
          r := Some(v);
        }
    }
  }

  /** The boundaries the search returns for a city, as `OSMServices::get_detail_by_osm` computes them. */
  function OsmBoundaries(boundaries: BoundaryApi, countryName: string, cityName: string, wkb: Encoder): Option<seq<Boundary>> {
    match boundaries(SearchText(cityName, countryName))
    case None => None
    case Some(doc) => BoundariesOf(doc, wkb)
  }

  /** `OSMServices::get_detail_by_osm`: searches for the city and filters the answer to its boundaries. */
  method GetDetailByOsm(boundaries: BoundaryApi, countryName: string, cityName: string, wkb: Encoder)
    returns (r: Option<seq<Boundary>>)
    ensures r == OsmBoundaries(boundaries, countryName, cityName, wkb)
    ensures boundaries(SearchText(cityName, countryName)).None? ==> r == None
    ensures r.Some? ==> |r.value| > 0
  {
    match boundaries(SearchText(cityName, countryName)) {
      case None =>
        r := None;
      case Some(doc) =>
        r := ParseGeoJson(doc, wkb);
    }
  }
}
