/**
 * The place repository: the `city_geom` and `city_information` tables held
 * in memory. The database decides, row by row, whether an insert succeeds
 * (`Constraints`); a failed insert is only logged and leaves the tables as
 * they were.
 */
module Repo {
  import opened Wrappers
  import opened JsonValue
  import opened Geo
  import opened Schema

  /** A row of `city_geom`. */
  datatype GeomRow = GeomRow(
    googlePlaceId: string,
    osmId: I64,
    geom: Bytes,
    boundingBox: Bytes,
    centerPoint: Bytes)

  /** A row of `city_information`. */
  datatype InfoRow = InfoRow(
    googlePlaceId: string,
    osmId: Option<I64>,
    osmType: Option<string>,
    placeId: Option<I64>,
    placeRank: Option<I16>,
    placeType: Option<string>,
    importance: Option<real>,
    displayName: Option<string>,
    category: Option<string>,
    countryCode: string,
    country: string,
    city: string)

  datatype Tables = Tables(cityGeom: seq<GeomRow>, cityInformation: seq<InfoRow>)

  /** Which inserts the database accepts. */
  datatype Constraints = Constraints(acceptsGeom: GeomRow -> bool, acceptsInfo: InfoRow -> bool)

  /** One attempted insert. */
  datatype Write = GeomWrite(geomRow: GeomRow) | InfoWrite(infoRow: InfoRow)

  const I64_WRAP: int := 0x1_0000_0000_0000_0000

  /** Rust's `x as i64` on a `usize`: two's-complement wrap-around above `i64::MAX`. */
  function AsI64(x: Usize): (r: I64)
    ensures (r - x) % I64_WRAP == 0
    ensures x < 0x8000_0000_0000_0000 <==> r == x
  {
    if x < 0x8000_0000_0000_0000 then x else x - I64_WRAP
  }

  function OptionAsI64(x: Option<Usize>): Option<I64> {
    if x.Some? then Some(AsI64(x.value)) else None
  }

  /** The row `create_place_geometry` inserts, its arguments in column order. */
  function GeomRowOf(placeId: string, osmId: Usize, complexPolygon: Bytes, boundingBox: Bytes, centerPoint: Bytes): (row: GeomRow)
    ensures row.googlePlaceId == placeId && row.geom == complexPolygon &&
            row.boundingBox == boundingBox && row.centerPoint == centerPoint
    ensures (row.osmId - osmId) % I64_WRAP == 0
    ensures osmId < 0x8000_0000_0000_0000 ==> row.osmId == osmId
  {
    GeomRow(placeId, AsI64(osmId), complexPolygon, boundingBox, centerPoint)
  }

  /** The row `create_city_information` inserts: the place, the eight properties and the country and city names. */
  function InfoRowOf(placeId: string, p: Properties, countryCode: string, countryName: string, cityName: string): (row: InfoRow)
    ensures row.googlePlaceId == placeId && row.countryCode == countryCode && row.country == countryName && row.city == cityName
    ensures row.osmType == p.osmType && row.placeRank == p.placeRank && row.placeType == p.placeType &&
            row.importance == p.importance && row.displayName == p.displayName && row.category == p.category
    ensures row.osmId.Some? <==> p.osmId.Some?
    ensures row.placeId.Some? <==> p.placeId.Some?
    ensures p.osmId.Some? && p.osmId.value < 0x8000_0000_0000_0000 ==> row.osmId == p.osmId
    ensures p.placeId.Some? && p.placeId.value < 0x8000_0000_0000_0000 ==> row.placeId == p.placeId
    ensures p.osmId.Some? ==> row.osmId.value == AsI64(p.osmId.value)
    ensures p.placeId.Some? ==> row.placeId.value == AsI64(p.placeId.value)
  {
    InfoRow(placeId, OptionAsI64(p.osmId), p.osmType, OptionAsI64(p.placeId), p.placeRank, p.placeType,
            p.importance, p.displayName, p.category, countryCode, countryName, cityName)
  }

  /** A row of `city_information` stored for the given country code and city. */
  predicate IsKeyedBy(row: InfoRow, countryCode: string, cityName: string) {
    row.countryCode == countryCode && row.city == cityName
  }

  /**
   * The `google_place_id` of a `city_information` row with the given country
   * code and city, `None` when there is none. SQL leaves the choice among
   * several matches open; the model takes the earliest inserted.
   */
  function FindPlaceId(rows: seq<InfoRow>, countryCode: string, cityName: string): (id: Option<string>)
    ensures id.Some? <==> exists i :: 0 <= i < |rows| && IsKeyedBy(rows[i], countryCode, cityName)
    ensures id.Some? ==> exists i :: 0 <= i < |rows| && IsKeyedBy(rows[i], countryCode, cityName) && rows[i].googlePlaceId == id.value
    decreases |rows|
  {
    if rows == [] then None
    else if IsKeyedBy(rows[0], countryCode, cityName) then Some(rows[0].googlePlaceId)
    else FindPlaceId(rows[1..], countryCode, cityName)
  }

  /** Inserting more rows never changes an identifier that is already found. */
  lemma {:induction false} FindPlaceIdStable(rows: seq<InfoRow>, more: seq<InfoRow>, countryCode: string, cityName: string)
    requires FindPlaceId(rows, countryCode, cityName).Some?
    ensures FindPlaceId(rows + more, countryCode, cityName) == FindPlaceId(rows, countryCode, cityName)
    decreases |rows|
  {
    if !IsKeyedBy(rows[0], countryCode, cityName) {
      assert (rows + more)[1..] == rows[1..] + more;
      FindPlaceIdStable(rows[1..], more, countryCode, cityName);
    }
  }

  /** The tables after one attempted insert. */
  function Step(c: Constraints, t: Tables, w: Write): Tables {
    match w
    case GeomWrite(row) => if c.acceptsGeom(row) then t.(cityGeom := t.cityGeom + [row]) else t
    case InfoWrite(row) => if c.acceptsInfo(row) then t.(cityInformation := t.cityInformation + [row]) else t
  }

  /** The tables after a sequence of attempted inserts, in order. */
  function Apply(c: Constraints, t: Tables, ws: seq<Write>): Tables
    decreases |ws|
  {
    if ws == [] then t else Apply(c, Step(c, t, ws[0]), ws[1..])
  }

  /** The geometry rows the database accepts from a sequence of inserts, in order. */
  function AcceptedGeom(c: Constraints, ws: seq<Write>): seq<GeomRow>
    decreases |ws|
  {
    if ws == [] then []
    else (if ws[0].GeomWrite? && c.acceptsGeom(ws[0].geomRow) then [ws[0].geomRow] else []) + AcceptedGeom(c, ws[1..])
  }

  /** The information rows the database accepts from a sequence of inserts, in order. */
  function AcceptedInfo(c: Constraints, ws: seq<Write>): seq<InfoRow>
    decreases |ws|
  {
    if ws == [] then []
    else (if ws[0].InfoWrite? && c.acceptsInfo(ws[0].infoRow) then [ws[0].infoRow] else []) + AcceptedInfo(c, ws[1..])
  }

  /** The tables only grow: each ends with the rows accepted for it, in the order they were written. */
  lemma {:induction false} ApplyAppends(c: Constraints, t: Tables, ws: seq<Write>)
    ensures Apply(c, t, ws) == Tables(t.cityGeom + AcceptedGeom(c, ws), t.cityInformation + AcceptedInfo(c, ws))
    decreases |ws|
  {
    if ws != [] {
      ApplyAppends(c, Step(c, t, ws[0]), ws[1..]);
      assert t.cityGeom + AcceptedGeom(c, ws) == Step(c, t, ws[0]).cityGeom + AcceptedGeom(c, ws[1..]);
      assert t.cityInformation + AcceptedInfo(c, ws) == Step(c, t, ws[0]).cityInformation + AcceptedInfo(c, ws[1..]);
    }
  }

  /** Two inserts are applied one after the other. */
  lemma ApplyTwo(c: Constraints, t: Tables, a: Write, b: Write)
    ensures Apply(c, t, [a, b]) == Step(c, Step(c, t, a), b)
  {
    assert [a, b][1..] == [b] && [b][1..] == [];
    var mid := Step(c, t, a);
    assert Apply(c, t, [a, b]) == Apply(c, mid, [b]);
    assert Apply(c, mid, [b]) == Apply(c, Step(c, mid, b), []);
  }

  /** Inserting two sequences one after the other is inserting their concatenation. */
  lemma {:induction false} ApplyConcat(c: Constraints, t: Tables, a: seq<Write>, b: seq<Write>)
    ensures Apply(c, t, a + b) == Apply(c, Apply(c, t, a), b)
    decreases |a|
  {
    if a != [] {
      assert (a + b)[0] == a[0] && (a + b)[1..] == a[1..] + b;
      ApplyConcat(c, Step(c, t, a[0]), a[1..], b);
    } else {
      assert a + b == b;
    }
  }

  /** Every accepted information row comes from an information insert in the sequence. */
  lemma {:induction false} AcceptedInfoFromWrites(c: Constraints, ws: seq<Write>)
    ensures forall k :: 0 <= k < |AcceptedInfo(c, ws)| ==>
      InfoWrite(AcceptedInfo(c, ws)[k]) in ws && c.acceptsInfo(AcceptedInfo(c, ws)[k])
    ensures (exists k :: 0 <= k < |ws| && ws[k].InfoWrite? && c.acceptsInfo(ws[k].infoRow)) ==> |AcceptedInfo(c, ws)| > 0
    decreases |ws|
  {
    if ws != [] {
      AcceptedInfoFromWrites(c, ws[1..]);
      if exists k :: 0 <= k < |ws| && ws[k].InfoWrite? && c.acceptsInfo(ws[k].infoRow) {
        var k :| 0 <= k < |ws| && ws[k].InfoWrite? && c.acceptsInfo(ws[k].infoRow);
        if k > 0 {
          assert ws[1..][k - 1] == ws[k];
        }
      }
    }
  }

  /** The repository as the program uses it through the `PlaceRepository` trait. */
  class PlaceRepository {
    var cityGeom: seq<GeomRow>
    var cityInformation: seq<InfoRow>
    const constraints: Constraints

    function State(): Tables
      reads this
    {
      Tables(cityGeom, cityInformation)
    }

    /** Empty tables. */
    constructor (constraints: Constraints)
      ensures State() == Tables([], []) && this.constraints == constraints
    {
      cityGeom := [];
      cityInformation := [];
      this.constraints := constraints;
    }

    /** `get_place_id`: the identifier stored for a country code and city, if any. */
    method GetPlaceId(countryCode: string, cityName: string) returns (id: Option<string>)
      ensures id == FindPlaceId(cityInformation, countryCode, cityName)
      ensures id.Some? <==> exists i :: 0 <= i < |cityInformation| && IsKeyedBy(cityInformation[i], countryCode, cityName)
      ensures id.Some? ==> exists i ::
        0 <= i < |cityInformation| && IsKeyedBy(cityInformation[i], countryCode, cityName) &&
        cityInformation[i].googlePlaceId == id.value
    {
      id := FindPlaceId(cityInformation, countryCode, cityName);
    }

    /** `create_place_geometry`: inserts one `city_geom` row; a rejected insert changes nothing. */
    method CreatePlaceGeometry(placeId: string, osmId: Usize, complexPolygon: Bytes, boundingBox: Bytes, centerPoint: Bytes)
      modifies this
      ensures State() == Step(constraints, old(State()), GeomWrite(GeomRowOf(placeId, osmId, complexPolygon, boundingBox, centerPoint)))
      ensures cityInformation == old(cityInformation)
      ensures var row := GeomRowOf(placeId, osmId, complexPolygon, boundingBox, centerPoint);
        cityGeom == if constraints.acceptsGeom(row) then old(cityGeom) + [row] else old(cityGeom)
    {
      var row := GeomRowOf(placeId, osmId, complexPolygon, boundingBox, centerPoint);
      if constraints.acceptsGeom(row) {
        cityGeom := cityGeom + [row];
      }
    }

    /** `create_city_information`: inserts one `city_information` row; a rejected insert changes nothing. */
    method CreateCityInformation(placeId: string, properties: Properties, countryCode: string, countryName: string, cityName: string)
      modifies this
      ensures State() == Step(constraints, old(State()), InfoWrite(InfoRowOf(placeId, properties, countryCode, countryName, cityName)))
      ensures cityGeom == old(cityGeom)
      ensures var row := InfoRowOf(placeId, properties, countryCode, countryName, cityName);
        cityInformation == if constraints.acceptsInfo(row) then old(cityInformation) + [row] else old(cityInformation)
    {
      var row := InfoRowOf(placeId, properties, countryCode, countryName, cityName);
      if constraints.acceptsInfo(row) {
        cityInformation := cityInformation + [row];
      }
    }
  }
}
