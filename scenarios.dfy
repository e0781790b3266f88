/**
 Client runs of the coordinator: what a caller can conclude from the
 contracts of BaseMapRender alone, for the behaviours the map views rely on.
 */
module MapRenderScenarios {
  import opened MapModels
  import opened MapRenderSpec
  import opened MapRender

  /** A load whose provider call rejects: the failure comes back unchanged, no map, no markers. */
  method FailedLoad(divId: string, storeMapState: MapState, reason: string)
    returns (r: Outcome, initialized: bool, live: set<string>)
    ensures r == Threw(ProviderFailure(reason))
    ensures !initialized
    ensures live == {}
  {
    var view := new BaseMapRender(divId);
    r := view.LoadMap(storeMapState, Rejected(ProviderFailure(reason)));
    initialized := view.IsInitialized();
    live := LiveNames(view.markers);
  }

  /** Load, add "a", remove "b" which was never added, then "a": only "a" was ever live. */
  method AddThenRemove(divId: string, storeMapState: MapState, obj: MapObj, params: MarkerParams, h: Handle)
    returns (liveAfterAdd: set<string>, liveAfterRemove: set<string>, keys: set<string>)
    ensures liveAfterAdd == {"a"}
    ensures liveAfterRemove == {}
    ensures keys == {"a"}
  {
    var view := new BaseMapRender(divId);
    var r := view.LoadMap(storeMapState, Loaded(obj));
    view.AddMarker("a", params, h);
    liveAfterAdd := LiveNames(view.markers);
    assert liveAfterAdd == {"a"};
    view.RemoveMarker("b");
    view.RemoveMarker("a");
    liveAfterRemove := LiveNames(view.markers);
    assert liveAfterRemove == {};
    keys := view.markers.Keys;
  }

  /** Moving the map after a load: the new center is kept, and the last call sends it to the store. */
  method Recenter(divId: string, storeMapState: MapState, obj: MapObj, p: LatLng)
    returns (r: Outcome, center: LatLng, zoom: real, ghost lastCall: Event)
    ensures r == Completed
    ensures center == p
    ensures zoom == storeMapState.zoom
    ensures lastCall == UpdateMapState(Some(storeMapState.(center := p)))
  {
    var view := new BaseMapRender(divId);
    var loaded := view.LoadMap(storeMapState, Loaded(obj));
    r := view.SetCenterCoordinates(p);
    center := view.mapState.value.center;
    zoom := view.mapState.value.zoom;
    lastCall := view.trace[|view.trace| - 1];
  }

  /** Tearing down a loaded view with any number of markers: no map and no live marker remain. */
  method Teardown(divId: string, storeMapState: MapState, obj: MapObj, entries: seq<MarkerEntry>, handles: seq<Handle>)
    returns (initialized: bool, live: set<string>)
    requires |handles| == |entries|
    ensures !initialized
    ensures live == {}
  {
    var view := new BaseMapRender(divId);
    var loaded := view.LoadMap(storeMapState, Loaded(obj));
    view.AddMarkers(entries, handles);
    ghost var order := view.RemoveMap();
    initialized := view.IsInitialized();
    live := LiveNames(view.markers);
  }
}
