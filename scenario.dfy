/**
 * A worked run: one country with one city, upstream services that answer
 * with one prediction, one place detail and one boundary feature, and a
 * database that accepts every insert. The run writes exactly one row to
 * each table.
 */
module Scenario {
  import opened Wrappers
  import opened JsonValue
  import opened Geo
  import opened Schema
  import opened PlaceServices
  import opened Repo
  import opened Pipeline

  const Thailand: Country := Country("Thailand", "TH", 13.75, 100.50, [City("Bangkok", "Bangkok")])

  const Detail: GeometryResponse :=
    GeometryResponse(PlaceResult(Geometry(Coordinate(13.7563, 100.5018),
                                          ViewPort(Coordinate(13.9, 100.9), Coordinate(13.5, 100.1)))))

  const Outline: Shape :=
    PolygonShape(Polygon([Point(100.1, 13.5), Point(100.9, 13.5), Point(100.9, 13.9), Point(100.1, 13.5)], []))

  const BoundaryFeature: Feature :=
    Feature(Some(map["osm_id" := Int(999), "category" := Str("boundary"), "display_name" := Str("Bangkok")]),
            Some(Outline))

  /** Services that know only Bangkok; any other request fails. */
  function Services(wkb: Encoder): Upstream {
    Upstream(
      (q: string, lat: real, lng: real) =>
        if q == "Bangkok, Thailand" then Some(EncodeAutoCompleteResponse(AutoCompleteResponse([Place("abc123")]))) else None,
      (id: string) => if id == "abc123" then Some(EncodeGeometryResponse(Detail)) else None,
      (q: string) => if q == "Bangkok, Thailand" then Some(FeatureCollectionDoc([BoundaryFeature])) else None,
      wkb)
  }

  const AcceptAll: Constraints := Constraints((row: GeomRow) => true, (row: InfoRow) => true)

  const Props: Properties := Properties(Some(999), None, None, None, None, None, Some("Bangkok"), Some("boundary"))

  /** Autocomplete resolves Bangkok to its one prediction. */
  lemma BangkokPlaceId(wkb: Encoder)
    ensures GetPlaceId(Services(wkb).autocomplete, "Thailand", "Bangkok", 13.75, 100.50) == Some("abc123")
  {
    assert SearchText("Bangkok", "Thailand") == "Bangkok, Thailand";
    AutoCompleteRoundTrip(AutoCompleteResponse([Place("abc123")]));
  }

  /** The detail lookup returns the detail response. */
  lemma BangkokDetail(wkb: Encoder)
    ensures GetDetailByPlaceId(Services(wkb).details, "abc123") == Some(Detail)
  {
    GeometryResponseRoundTrip(Detail);
  }

  /** The boundary feature passes the filter with its decoded properties. */
  lemma BangkokFeature(wkb: Encoder)
    ensures ParseGeoFeature(BoundaryFeature, wkb) == (Some(Props), Some(wkb(CollectionShape([Outline]))))
  {
    var bag := BoundaryFeature.properties.value;
    assert OptionalField(bag, "osm_id", AsUsize) == Some(Some(999));
    assert OptionalField(bag, "osm_type", AsString) == Some(None);
    assert OptionalField(bag, "place_id", AsUsize) == Some(None);
    assert OptionalField(bag, "place_rank", AsI16) == Some(None);
    assert OptionalField(bag, "type", AsString) == Some(None);
    assert OptionalField(bag, "importance", AsF64) == Some(None);
    assert OptionalField(bag, "display_name", AsString) == Some(Some("Bangkok"));
    assert OptionalField(bag, "category", AsString) == Some(Some("boundary"));
    assert DecodeProperties(bag) == Some(Props);
  }

  /** The boundary search keeps the one boundary feature. */
  lemma BangkokBoundaries(wkb: Encoder)
    ensures OsmBoundaries(Services(wkb).boundaries, "Thailand", "Bangkok", wkb) == Some([(Props, wkb(CollectionShape([Outline])))])
  {
    assert SearchText("Bangkok", "Thailand") == "Bangkok, Thailand";
    assert Services(wkb).boundaries("Bangkok, Thailand") == Some(FeatureCollectionDoc([BoundaryFeature]));
    BangkokFeature(wkb);
    var fs := [BoundaryFeature];
    var kept := [(Props, wkb(CollectionShape([Outline])))];
    assert fs[..|fs| - 1] == [] && fs[|fs| - 1] == BoundaryFeature;
    assert Kept(fs, wkb) == kept;
    assert BoundariesOf(FeatureCollectionDoc(fs), wkb) == Some(kept);
  }

  /** The geometry row and information row written for the boundary, given the encoded bounding box and centre. */
  function BangkokRows(wkb: Encoder, boundingBox: Bytes, centerPoint: Bytes): (GeomRow, InfoRow) {
    (GeomRow("abc123", 999, wkb(CollectionShape([Outline])), boundingBox, centerPoint),
     InfoRow("abc123", Some(999), None, None, None, None, None, Some("Bangkok"), Some("boundary"), "TH", "Thailand", "Bangkok"))
  }

  /** The one boundary fans out into one geometry insert and one information insert. */
  lemma BangkokFanOut(wkb: Encoder, boundingBox: Bytes, centerPoint: Bytes)
    ensures var rows := BangkokRows(wkb, boundingBox, centerPoint);
      FanOut("abc123", boundingBox, centerPoint, [(Props, wkb(CollectionShape([Outline])))], "TH", "Thailand", "Bangkok") ==
        ([GeomWrite(rows.0), InfoWrite(rows.1)], false)
  {
    var bs := [(Props, wkb(CollectionShape([Outline])))];
    assert bs[1..] == [];
    assert FanOut("abc123", boundingBox, centerPoint, bs[1..], "TH", "Thailand", "Bangkok") == ([], false);
    assert GeomRowOf("abc123", 999, bs[0].1, boundingBox, centerPoint) == BangkokRows(wkb, boundingBox, centerPoint).0;
    assert InfoRowOf("abc123", Props, "TH", "Thailand", "Bangkok") == BangkokRows(wkb, boundingBox, centerPoint).1;
    assert bs[0].0.osmId == Some(999);
    assert FanOut("abc123", boundingBox, centerPoint, bs, "TH", "Thailand", "Bangkok") ==
      ([GeomWrite(GeomRowOf("abc123", 999, bs[0].1, boundingBox, centerPoint)),
        InfoWrite(InfoRowOf("abc123", Props, "TH", "Thailand", "Bangkok"))] + [], false);
    var rows := BangkokRows(wkb, boundingBox, centerPoint);
    assert [GeomWrite(GeomRowOf("abc123", 999, bs[0].1, boundingBox, centerPoint)),
            InfoWrite(InfoRowOf("abc123", Props, "TH", "Thailand", "Bangkok"))] + [] ==
      [GeomWrite(rows.0), InfoWrite(rows.1)];
  }

  /** Against empty tables the city is written with one insert per table. */
  lemma BangkokPlan(wkb: Encoder)
    ensures var rows := BangkokRows(wkb, BoundingBox(Detail.result, wkb), Center(Detail.result, wkb));
      CityPlan(Tables([], []), Services(wkb), Thailand, City("Bangkok", "Bangkok")) ==
        ([GeomWrite(rows.0), InfoWrite(rows.1)], Written)
  {
    BangkokPlaceId(wkb);
    BangkokDetail(wkb);
    BangkokBoundaries(wkb);
    BangkokFanOut(wkb, BoundingBox(Detail.result, wkb), Center(Detail.result, wkb));
    assert FindPlaceId([], "TH", "Bangkok").None?;
  }

  /** A catalog of one single-city country whose plan is to write two accepted rows ends with exactly those rows. */
  lemma OneCityRun(up: Upstream, country: Country, g: GeomRow, r: InfoRow)
    requires |country.cities| == 1
    requires CityPlan(Tables([], []), up, country, country.cities[0]) == ([GeomWrite(g), InfoWrite(r)], Written)
    ensures RunCatalog(AcceptAll, Tables([], []), up, [country]) == (Tables([g], [r]), false)
  {
    var t0, t1 := Tables([], []), Tables([g], [r]);
    var plan := CityPlan(t0, up, country, country.cities[0]);
    ApplyTwo(AcceptAll, t0, GeomWrite(g), InfoWrite(r));
    assert Apply(AcceptAll, t0, plan.0) == t1;
    assert country.cities[1..] == [];
    assert RunCities(AcceptAll, t1, up, country, country.cities[1..]) == (t1, false);
    assert RunCities(AcceptAll, t0, up, country, country.cities) == (t1, false);
    assert [country][1..] == [];
    assert RunCatalog(AcceptAll, t1, up, [country][1..]) == (t1, false);
  }

  /**
   * The run over the one-city catalog, starting from empty tables, completes
   * and stores one geometry row for place `abc123` with osm_id 999 and one
   * information row for Bangkok, Thailand.
   */
  lemma BangkokRun(wkb: Encoder)
    ensures var rows := BangkokRows(wkb, BoundingBox(Detail.result, wkb), Center(Detail.result, wkb));
      RunCatalog(AcceptAll, Tables([], []), Services(wkb), [Thailand]) == (Tables([rows.0], [rows.1]), false)
  {
    var rows := BangkokRows(wkb, BoundingBox(Detail.result, wkb), Center(Detail.result, wkb));
    BangkokPlan(wkb);
    assert Thailand.cities[0] == City("Bangkok", "Bangkok");
    OneCityRun(Services(wkb), Thailand, rows.0, rows.1);
  }
}
