/**
 The value records a map view exchanges with its callers and with the
 application store (src/view/models/iMapRender.ts). Coordinates and zoom
 levels are only copied around, never computed on, so they are kept as
 `real` without any floating-point meaning.
 */
module MapModels {

  /** An optional value; `None` stands for a field that is absent or null. */
  datatype Option<+T> = None | Some(value: T)

  /** iMapLatLng: a geographic position. */
  datatype LatLng = LatLng(lat: real, lng: real)

  /** iMapAddMarkerParams: what a caller asks the provider to draw. */
  datatype MarkerParams = MarkerParams(markerTitle: string, position: LatLng, color: Option<string>)

  /** iMapBounds: the visible rectangle of the map. */
  datatype Bounds = Bounds(northEast: LatLng, southWest: LatLng)

  /** iMapState: what the view mirrors into the application store. */
  datatype MapState = MapState(center: LatLng, bounds: Option<Bounds>, zoom: real)

  /** One entry of the list that addMarkers takes. */
  datatype MarkerEntry = MarkerEntry(markerReferenceName: string, params: MarkerParams)
}
