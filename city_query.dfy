/** The spatial query a map click sends to the city layer. */
module CityQuery {
  import opened Features

  /** The query record handed to the city layer's `queryFeatures`. */
  datatype Query = Query(
    geometry: Point,
    geometryType: string,
    units: string,
    distance: real,
    spatialRelationship: string,
    outFields: seq<string>,
    returnGeometry: bool,
    where: string)

  /** The attributes every returned city carries (see `Features.Attributes`). */
  const CITY_FIELDS: seq<string> := ["objectid", "areaname", "pop2000", "class"]

  /** The record built for a query around `point`: the caller chooses the centre, the
      search distance and the spatial relation; everything else is fixed — distances in
      kilometres, cities only, the four city fields, geometry returned. */
  function QueryFeatureLayer(point: Point, distance: real, spatialRelationship: string): (q: Query)
    ensures q.geometry == point && q.distance == distance && q.spatialRelationship == spatialRelationship
    ensures q.geometryType == "esriGeometryEnvelope" && q.units == "kilometers"
    ensures q.where == "class='city'" && q.outFields == CITY_FIELDS && q.returnGeometry
  {
    Query(point, "esriGeometryEnvelope", "kilometers", distance, spatialRelationship,
          CITY_FIELDS, true, "class='city'")
  }

  /** The query issued on every map click: cities intersecting 50 km around the clicked point. */
  function ClickQuery(mapPoint: Point): (q: Query)
    ensures q.geometry == mapPoint && q.distance == 50.0 && q.spatialRelationship == "esriSpatialRelIntersects"
    ensures q.units == "kilometers" && q.where == "class='city'"
  {
    QueryFeatureLayer(mapPoint, 50.0, "esriSpatialRelIntersects")
  }

  /** The projection covers the `objectid` and `pop2000` attributes that the result
      handlers read, whatever the caller's arguments. */
  lemma QueryProjectsReadFields(point: Point, distance: real, spatialRelationship: string)
    ensures "objectid" in QueryFeatureLayer(point, distance, spatialRelationship).outFields
    ensures "pop2000" in QueryFeatureLayer(point, distance, spatialRelationship).outFields
  {
  }
}
