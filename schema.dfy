/**
 * The response shapes of the two upstream services and the descriptive
 * properties of a boundary feature, with the decoding serde derives for
 * them, and the centre point and bounding rectangle built from a place
 * detail result.
 */
module Schema {
  import opened Wrappers
  import opened JsonValue
  import opened Geo

  /** One autocomplete prediction; only its identifier is read. */
  datatype Place = Place(placeId: string)

  /** An autocomplete response: the predictions, in the order received. */
  datatype AutoCompleteResponse = AutoCompleteResponse(predictions: seq<Place>)

  datatype Coordinate = Coordinate(lat: real, lng: real)

  datatype ViewPort = ViewPort(northeast: Coordinate, southwest: Coordinate)

  datatype Geometry = Geometry(location: Coordinate, viewport: ViewPort)

  /** The `result` object of a place detail response (named `Result` in the program). */
  datatype PlaceResult = PlaceResult(geometry: Geometry)

  datatype GeometryResponse = GeometryResponse(result: PlaceResult)

  /** The property bag of a boundary-search feature; every field is optional. */
  datatype Properties = Properties(
    osmId: Option<Usize>,
    osmType: Option<string>,
    placeId: Option<Usize>,
    placeRank: Option<I16>,
    placeType: Option<string>,
    importance: Option<real>,
    displayName: Option<string>,
    category: Option<string>)

  // ---------------------------------------------------------------- decoding

  function DecodePlace(v: Value): Option<Place> {
    var obj :- AsObject(v);
    var id :- RequiredField(obj, "place_id", AsString);
    Some(Place(id))
  }

  /** A `Vec<Place>`: every element must decode, or the whole list fails. */
  function DecodePlaces(items: seq<Value>): Option<seq<Place>>
    decreases |items|
  {
    if items == [] then Some([])
    else
      var p :- DecodePlace(items[0]);
      var rest :- DecodePlaces(items[1..]);
      Some([p] + rest)
  }

  function DecodeAutoCompleteResponse(v: Value): Option<AutoCompleteResponse> {
    var obj :- AsObject(v);
    var items :- RequiredField(obj, "predictions", AsArray);
    var predictions :- DecodePlaces(items);
    Some(AutoCompleteResponse(predictions))
  }

  function DecodeCoordinate(v: Value): Option<Coordinate> {
    var obj :- AsObject(v);
    var lat :- RequiredField(obj, "lat", AsF64);
    var lng :- RequiredField(obj, "lng", AsF64);
    Some(Coordinate(lat, lng))
  }

  function DecodeViewPort(v: Value): Option<ViewPort> {
    var obj :- AsObject(v);
    var northeast :- RequiredField(obj, "northeast", DecodeCoordinate);
    var southwest :- RequiredField(obj, "southwest", DecodeCoordinate);
    Some(ViewPort(northeast, southwest))
  }

  function DecodeGeometry(v: Value): Option<Geometry> {
    var obj :- AsObject(v);
    var location :- RequiredField(obj, "location", DecodeCoordinate);
    var viewport :- RequiredField(obj, "viewport", DecodeViewPort);
    Some(Geometry(location, viewport))
  }

  function DecodePlaceResult(v: Value): Option<PlaceResult> {
    var obj :- AsObject(v);
    var geometry :- RequiredField(obj, "geometry", DecodeGeometry);
    Some(PlaceResult(geometry))
  }

  function DecodeGeometryResponse(v: Value): Option<GeometryResponse> {
    var obj :- AsObject(v);
    var result :- RequiredField(obj, "result", DecodePlaceResult);
    Some(GeometryResponse(result))
  }

  /** The keys the property bag is read from; the source key `type` fills `placeType`. */
  const PropertyKeys: set<string> :=
    {"osm_id", "osm_type", "place_id", "place_rank", "type", "importance", "display_name", "category"}

  function DecodeProperties(bag: JsonObject): Option<Properties> {
    var osmId :- OptionalField(bag, "osm_id", AsUsize);
    var osmType :- OptionalField(bag, "osm_type", AsString);
    var placeId :- OptionalField(bag, "place_id", AsUsize);
    var placeRank :- OptionalField(bag, "place_rank", AsI16);
    var placeType :- OptionalField(bag, "type", AsString);
    var importance :- OptionalField(bag, "importance", AsF64);
    var displayName :- OptionalField(bag, "display_name", AsString);
    var category :- OptionalField(bag, "category", AsString);
    Some(Properties(osmId, osmType, placeId, placeRank, placeType, importance, displayName, category))
  }

  // ------------------------------------------------ encoding (the inverses)

  function EncodePlace(p: Place): Value {
    Object(map["place_id" := Str(p.placeId)])
  }

  function EncodePlaces(ps: seq<Place>): (items: seq<Value>)
    ensures |items| == |ps|
    ensures forall i :: 0 <= i < |ps| ==> items[i] == EncodePlace(ps[i])
  {
    seq(|ps|, i requires 0 <= i < |ps| => EncodePlace(ps[i]))
  }

  function EncodeAutoCompleteResponse(r: AutoCompleteResponse): Value {
    Object(map["predictions" := Array(EncodePlaces(r.predictions))])
  }

  function EncodeCoordinate(c: Coordinate): Value {
    Object(map["lat" := Float(c.lat), "lng" := Float(c.lng)])
  }

  function EncodeGeometryResponse(g: GeometryResponse): Value {
    var geometry := g.result.geometry;
    var viewport := Object(map["northeast" := EncodeCoordinate(geometry.viewport.northeast),
                               "southwest" := EncodeCoordinate(geometry.viewport.southwest)]);
    Object(map["result" := Object(map["geometry" := Object(map["location" := EncodeCoordinate(geometry.location),
                                                                "viewport" := viewport])])])
  }

  /** The JSON value a property key is written with, if its field is present. */
  function PropertyValue(p: Properties, key: string): Option<Value> {
    if key == "osm_id" then (if p.osmId.Some? then Some(Int(p.osmId.value)) else None)
    else if key == "osm_type" then (if p.osmType.Some? then Some(Str(p.osmType.value)) else None)
    else if key == "place_id" then (if p.placeId.Some? then Some(Int(p.placeId.value)) else None)
    else if key == "place_rank" then (if p.placeRank.Some? then Some(Int(p.placeRank.value)) else None)
    else if key == "type" then (if p.placeType.Some? then Some(Str(p.placeType.value)) else None)
    else if key == "importance" then (if p.importance.Some? then Some(Float(p.importance.value)) else None)
    else if key == "display_name" then (if p.displayName.Some? then Some(Str(p.displayName.value)) else None)
    else if key == "category" then (if p.category.Some? then Some(Str(p.category.value)) else None)
    else None
  }

  /** A property bag holding exactly the fields that are present. */
  function EncodeProperties(p: Properties): JsonObject {
    map key | key in PropertyKeys && PropertyValue(p, key).Some? :: PropertyValue(p, key).value
  }

  // ------------------------------------------------------- decoding lemmas

  /** A list of predictions decodes exactly when each of them does, element by element. */
  lemma {:induction false} DecodePlacesAllOrNothing(items: seq<Value>)
    ensures DecodePlaces(items).Some? <==> forall i :: 0 <= i < |items| ==> DecodePlace(items[i]).Some?
    ensures DecodePlaces(items).Some? ==>
      |DecodePlaces(items).value| == |items| &&
      forall i :: 0 <= i < |items| ==> DecodePlaces(items).value[i] == DecodePlace(items[i]).value
    decreases |items|
  {
    if items != [] {
      DecodePlacesAllOrNothing(items[1..]);
      assert forall i :: 1 <= i < |items| ==> items[i] == items[1..][i - 1];
    }
  }

  /** An autocomplete response decodes back to itself, predictions and their order included. */
  lemma AutoCompleteRoundTrip(r: AutoCompleteResponse)
    ensures DecodeAutoCompleteResponse(EncodeAutoCompleteResponse(r)) == Some(r)
  {
    var items := EncodePlaces(r.predictions);
    forall i | 0 <= i < |items| ensures DecodePlace(items[i]) == Some(r.predictions[i]) {
    }
    DecodePlacesAllOrNothing(items);
    assert DecodePlaces(items).value == r.predictions;
  }

  /** A place detail response decodes back to itself. */
  lemma GeometryResponseRoundTrip(g: GeometryResponse)
    ensures DecodeGeometryResponse(EncodeGeometryResponse(g)) == Some(g)
  {
  }

  /** A property bag decodes back to the properties it was written from; `placeType` travels under the key `type`. */
  lemma PropertiesRoundTrip(p: Properties)
    ensures DecodeProperties(EncodeProperties(p)) == Some(p)
    ensures p.placeType.Some? ==> "type" in EncodeProperties(p) && "place_type" !in EncodeProperties(p)
  {
    var bag := EncodeProperties(p);
    assert bag.Keys <= PropertyKeys;
    assert OptionalField(bag, "osm_id", AsUsize) == Some(p.osmId);
    assert OptionalField(bag, "osm_type", AsString) == Some(p.osmType);
    assert OptionalField(bag, "place_id", AsUsize) == Some(p.placeId);
    assert OptionalField(bag, "place_rank", AsI16) == Some(p.placeRank);
    assert OptionalField(bag, "type", AsString) == Some(p.placeType);
    assert OptionalField(bag, "importance", AsF64) == Some(p.importance);
    assert OptionalField(bag, "display_name", AsString) == Some(p.displayName);
    assert OptionalField(bag, "category", AsString) == Some(p.category);
  }

  /** The value of each property key is acceptable: absent, null, or of the field's kind and range. */
  predicate WellTyped(bag: JsonObject) {
    OptionalField(bag, "osm_id", AsUsize).Some? &&
    OptionalField(bag, "osm_type", AsString).Some? &&
    OptionalField(bag, "place_id", AsUsize).Some? &&
    OptionalField(bag, "place_rank", AsI16).Some? &&
    OptionalField(bag, "type", AsString).Some? &&
    OptionalField(bag, "importance", AsF64).Some? &&
    OptionalField(bag, "display_name", AsString).Some? &&
    OptionalField(bag, "category", AsString).Some?
  }

  /**
   * A property bag decodes exactly when every key it shares with `Properties`
   * holds an acceptable value: one ill-typed field fails the whole bag rather
   * than becoming `None`. When it decodes, a key that is absent or null gives
   * `None` and any other gives its value.
   */
  lemma PropertiesDecodeExactly(bag: JsonObject)
    ensures DecodeProperties(bag).Some? <==> WellTyped(bag)
    ensures DecodeProperties(bag).Some? ==>
      var p := DecodeProperties(bag).value;
      p.osmId == OptionalField(bag, "osm_id", AsUsize).value &&
      p.osmType == OptionalField(bag, "osm_type", AsString).value &&
      p.placeId == OptionalField(bag, "place_id", AsUsize).value &&
      p.placeRank == OptionalField(bag, "place_rank", AsI16).value &&
      p.placeType == OptionalField(bag, "type", AsString).value &&
      p.importance == OptionalField(bag, "importance", AsF64).value &&
      p.displayName == OptionalField(bag, "display_name", AsString).value &&
      p.category == OptionalField(bag, "category", AsString).value
  {
  }

  /** `p` with the field read from `key` set to `None` (unchanged when `key` names no field). */
  function ClearField(p: Properties, key: string): Properties {
    if key == "osm_id" then p.(osmId := None)
    else if key == "osm_type" then p.(osmType := None)
    else if key == "place_id" then p.(placeId := None)
    else if key == "place_rank" then p.(placeRank := None)
    else if key == "type" then p.(placeType := None)
    else if key == "importance" then p.(importance := None)
    else if key == "display_name" then p.(displayName := None)
    else if key == "category" then p.(category := None)
    else p
  }

  /** Dropping any key from a bag that decodes leaves a bag that decodes, with the field of that key `None` and the rest unchanged. */
  lemma PropertiesMissingKey(bag: JsonObject, key: string)
    requires DecodeProperties(bag).Some?
    ensures DecodeProperties(bag - {key}) == Some(ClearField(DecodeProperties(bag).value, key))
  {
    var rest := bag - {key};
    OptionalFieldWithout(bag, key, "osm_id", AsUsize);
    OptionalFieldWithout(bag, key, "osm_type", AsString);
    OptionalFieldWithout(bag, key, "place_id", AsUsize);
    OptionalFieldWithout(bag, key, "place_rank", AsI16);
    OptionalFieldWithout(bag, key, "type", AsString);
    OptionalFieldWithout(bag, key, "importance", AsF64);
    OptionalFieldWithout(bag, key, "display_name", AsString);
    OptionalFieldWithout(bag, key, "category", AsString);
  }

  /** Removing a key makes that optional field absent and leaves every other field as it was. */
  lemma OptionalFieldWithout<T>(bag: JsonObject, removed: string, key: string, decode: Value -> Option<T>)
    ensures OptionalField(bag - {removed}, key, decode) ==
      if key == removed then Some(None) else OptionalField(bag, key, decode)
  {
  }

  /** The empty bag decodes, to properties with every field `None`. */
  lemma PropertiesEmptyBag()
    ensures DecodeProperties(map[]) == Some(Properties(None, None, None, None, None, None, None, None))
  {
  }

  /** Keys that `Properties` does not name, `place_type` among them, are ignored. */
  lemma PropertiesUnknownKey(bag: JsonObject, key: string, v: Value)
    requires key !in PropertyKeys
    ensures DecodeProperties(bag[key := v]) == DecodeProperties(bag)
  {
    OptionalFieldWith(bag, key, v, "osm_id", AsUsize);
    OptionalFieldWith(bag, key, v, "osm_type", AsString);
    OptionalFieldWith(bag, key, v, "place_id", AsUsize);
    OptionalFieldWith(bag, key, v, "place_rank", AsI16);
    OptionalFieldWith(bag, key, v, "type", AsString);
    OptionalFieldWith(bag, key, v, "importance", AsF64);
    OptionalFieldWith(bag, key, v, "display_name", AsString);
    OptionalFieldWith(bag, key, v, "category", AsString);
  }

  /** Setting a key other than the one a field reads leaves that field as it was. */
  lemma OptionalFieldWith<T>(bag: JsonObject, other: string, v: Value, key: string, decode: Value -> Option<T>)
    requires other != key
    ensures OptionalField(bag[other := v], key, decode) == OptionalField(bag, key, decode)
  {
  }

  // ------------------------------------------------ centre and viewport

  /** The centre of a place: x is the longitude, y the latitude. */
  function CenterPoint(r: PlaceResult): (p: Point)
    ensures p.x == r.geometry.location.lng && p.y == r.geometry.location.lat
  {
    Point(r.geometry.location.lng, r.geometry.location.lat)
  }

  /** `Result::center`: the encoded centre point. */
  function Center(r: PlaceResult, wkb: Encoder): Bytes {
    wkb(PointShape(CenterPoint(r)))
  }

  /** The viewport rectangle, spanned by the north-east and south-west corners with x = lng and y = lat. */
  function ViewportRect(r: PlaceResult): (b: Rect)
    ensures var ne, sw := r.geometry.viewport.northeast, r.geometry.viewport.southwest;
      Normalized(b) &&
      Contains(b, Point(ne.lng, ne.lat)) && Contains(b, Point(sw.lng, sw.lat)) &&
      b.min.x == Min(ne.lng, sw.lng) && b.max.x == Max(ne.lng, sw.lng) &&
      b.min.y == Min(ne.lat, sw.lat) && b.max.y == Max(ne.lat, sw.lat)
  {
    var vp := r.geometry.viewport;
    RectNew(Point(vp.northeast.lng, vp.northeast.lat), Point(vp.southwest.lng, vp.southwest.lat))
  }

  /** The viewport as a polygon: a closed ring of five positions around the viewport rectangle. */
  function ViewportPolygon(r: PlaceResult): (p: Polygon)
    ensures |p.exterior| == 5 && p.exterior[0] == p.exterior[4] && p.interiors == []
    ensures Corners(ViewportRect(r)) == {p.exterior[0], p.exterior[1], p.exterior[2], p.exterior[3]}
    ensures Bounds(p.exterior) == ViewportRect(r)
  {
    RectPolygonExtent(ViewportRect(r));
    RectToPolygon(ViewportRect(r))
  }

  /** `Result::bounding_box`: the encoded viewport polygon. */
  function BoundingBox(r: PlaceResult, wkb: Encoder): Bytes {
    wkb(PolygonShape(ViewportPolygon(r)))
  }

  /** A viewport given with its corners swapped yields the same rectangle, so the same bounding box. */
  lemma BoundingBoxCornerOrder(r: PlaceResult, wkb: Encoder)
    ensures var vp := r.geometry.viewport;
      var swapped := r.(geometry := r.geometry.(viewport := ViewPort(vp.southwest, vp.northeast)));
      BoundingBox(swapped, wkb) == BoundingBox(r, wkb)
  {
    var vp := r.geometry.viewport;
    RectNewSymmetric(Point(vp.northeast.lng, vp.northeast.lat), Point(vp.southwest.lng, vp.southwest.lat));
  }
}
