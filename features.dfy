/** Features returned by the city layer's query; read-only to the application. */
module Features {
  import opened JsNumbers

  /** A map location (the click point, or a city's point geometry). */
  datatype Point = Point(x: real, y: real)

  /** The attributes the city query projects: `objectid`, `areaname`, `pop2000` and
      `class` (named `featureClass` here, since `class` is a Dafny keyword).
      `pop2000` is whatever the service returned, so it may be null or missing. */
  datatype Attributes = Attributes(objectid: int, areaname: string, pop2000: JsValue, featureClass: string)

  /** One returned city: its geometry and its attributes. */
  datatype Feature = Feature(geometry: Point, attributes: Attributes)
}
