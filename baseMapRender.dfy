/**
 The coordinator every map view shares (src/view/views/mapRender/baseMapRender.ts):
 it owns the marker dictionary, the map object and the mirrored map state, and
 calls the provider hooks, its refresh hook and the dispatcher in a fixed order.
 The hooks are provider code and stay uninterpreted: each call only appends an
 event to the ghost `trace`, and what a hook returns is a parameter.
 */
module MapRender {
  import opened MapModels
  import opened MapRenderSpec

  class BaseMapRender {
    /** The map state mirrored into the store; `None` until loadMap copies it from the store. */
    var mapState: Option<MapState>
    /** The provider's map object; `None` stands for null. */
    var mapObj: Option<MapObj>
    /** Reference name to marker handle; removal writes null and keeps the key. */
    var markers: Markers
    /** The id of the container element, as given out when the view rendered itself. */
    const divId: string
    /** Every call the view has made outside itself, in order. */
    ghost var trace: seq<Event>

    /** A view that has rendered its container but not loaded a map. */
    constructor (divId: string)
      ensures this.divId == divId
      ensures mapState == None && mapObj == None && markers == map[] && trace == []
      ensures !IsInitialized()
    {
      this.divId := divId;
      mapState := None;
      mapObj := None;
      markers := map[];
      trace := [];
    }

    /** isInitialized: a (non-null) map object is held. */
    predicate IsInitialized()
      reads this
      ensures IsInitialized() <==> mapObj != None
    {
      mapObj.Some?
    }

    /** dispatchMapState: sends the current map state to the store. */
    method DispatchMapState()
      modifies this`trace
      ensures trace == old(trace) + [UpdateMapState(mapState)]
    {
      trace := trace + [UpdateMapState(mapState)];
    }

    /**
     loadMap: copies the store's map state, then awaits doLoadMap, whose
     settled result is `provider`. On success the map object is recorded, the
     callback listeners are set up and a Debug record is logged; on failure an
     Error record carrying the failure is logged and the same failure is thrown.
     */
    method LoadMap(storeMapState: MapState, provider: LoadResult) returns (r: Outcome)
      modifies this`mapState, this`mapObj, this`trace
      ensures mapState == Some(storeMapState)
      ensures provider.Loaded? ==>
                && r == Completed
                && mapObj == Some(provider.obj) && IsInitialized()
                && trace == old(trace) + [DoLoadMap(divId), InitCallbackListeners, NewLog(Debug, None)]
      ensures provider.Rejected? ==>
                && r == Threw(provider.error)
                && mapObj == old(mapObj) && IsInitialized() == old(IsInitialized())
                && trace == old(trace) + [DoLoadMap(divId), NewLog(Error, Some(provider.error))]
    {
      mapState := Some(storeMapState);
      trace := trace + [DoLoadMap(divId)];
      match provider {
        case Loaded(obj) =>
          mapObj := Some(obj);
          trace := trace + [InitCallbackListeners];
          trace := trace + [NewLog(Debug, None)];
          r := Completed;
        case Rejected(err) =>
          trace := trace + [NewLog(Error, Some(err))];
          r := Threw(err);
      }
    }

    /** addMarkerHelper: asks the provider for a marker (it returns `h`) and stores the handle. */
    method AddMarkerHelper(name: string, params: MarkerParams, h: Handle)
      modifies this`markers, this`trace
      ensures markers == Stored(old(markers), name, h)
      ensures trace == old(trace) + [DoAddMarker(name, params, h)]
    {
      trace := trace + [DoAddMarker(name, params, h)];
      markers := markers[name := Some(h)];
    }

    /** addMarker: one doAddMarker call, any previous handle overwritten without removal, one refresh. */
    method AddMarker(name: string, params: MarkerParams, h: Handle)
      modifies this`markers, this`trace
      ensures markers == Stored(old(markers), name, h)
      ensures markers[name] == Some(h)
      ensures forall k :: k in old(markers) && k != name ==> markers[k] == old(markers)[k]
      ensures trace == old(trace) + [DoAddMarker(name, params, h), RefreshMapState]
    {
      AddMarkerHelper(name, params, h);
      trace := trace + [RefreshMapState];
    }

    /** streamAddMarker: stores like addMarker; refreshes only on the last call of a stream. */
    method StreamAddMarker(name: string, params: MarkerParams, isLast: bool, h: Handle)
      modifies this`markers, this`trace
      ensures markers == Stored(old(markers), name, h)
      ensures trace == old(trace) + StreamEvents(MarkerEntry(name, params), h, isLast)
    {
      AddMarkerHelper(name, params, h);
      if isLast {
        trace := trace + [RefreshMapState];
      }
    }

    /**
     addMarkers: one doAddMarker per entry in list order (the provider returns
     handles[i] for entries[i]), then a single refresh, also for an empty list.
     */
    method AddMarkers(entries: seq<MarkerEntry>, handles: seq<Handle>)
      requires |handles| == |entries|
      modifies this`markers, this`trace
      ensures markers == StoredAll(old(markers), entries, handles)
      ensures trace == old(trace) + AddEvents(entries, handles) + [RefreshMapState]
      ensures Distinct(Names(entries)) ==>
                forall i :: 0 <= i < |entries| ==>
                  IsLive(markers, entries[i].markerReferenceName)
                  && markers[entries[i].markerReferenceName] == Some(handles[i])
      ensures forall k :: k in old(markers) && k !in Names(entries) ==> k in markers && markers[k] == old(markers)[k]
    {
      ghost var m0 := markers;
      ghost var t0 := trace;
      var i := 0;
      while i < |entries|
        invariant 0 <= i <= |entries|
        invariant markers == StoredAll(m0, entries[..i], handles[..i])
        invariant trace == t0 + AddEvents(entries[..i], handles[..i])
      {
        AddMarkerHelper(entries[i].markerReferenceName, entries[i].params, handles[i]);
        assert entries[..i + 1][..i] == entries[..i];
        assert handles[..i + 1][..i] == handles[..i];
        i := i + 1;
      }
      assert entries[..i] == entries && handles[..i] == handles;
      trace := trace + [RefreshMapState];
      forall j | Distinct(Names(entries)) && 0 <= j < |entries|
        ensures IsLive(markers, entries[j].markerReferenceName)
        ensures markers[entries[j].markerReferenceName] == Some(handles[j])
      {
        StoredAllAt(m0, entries, handles, j);
      }
      StoredAllFrame(m0, entries, handles);
    }

    /** removeMarkerHelper: a live handle is given to doRemoveMarker and its entry set to null. */
    method RemoveMarkerHelper(name: string)
      modifies this`markers, this`trace
      ensures markers == Cleared(old(markers), name)
      ensures trace == old(trace) + RemovalEvents(old(markers), name)
    {
      if !(name in markers && markers[name].Some?) {
        return;
      }
      trace := trace + [DoRemoveMarker(markers[name].value)];
      markers := markers[name := None];
    }

    /**
     removeMarker: for a live name, one doRemoveMarker with its handle and the
     entry set to null; for an absent or null name, nothing. A refresh follows
     in both cases.
     */
    method RemoveMarker(name: string)
      modifies this`markers, this`trace
      ensures markers == Cleared(old(markers), name)
      ensures markers.Keys == old(markers).Keys && !IsLive(markers, name)
      ensures IsLive(old(markers), name) ==>
                trace == old(trace) + [DoRemoveMarker(old(markers)[name].value), RefreshMapState]
      ensures !IsLive(old(markers), name) ==>
                markers == old(markers) && trace == old(trace) + [RefreshMapState]
    {
      RemoveMarkerHelper(name);
      trace := trace + [RefreshMapState];
    }

    /**
     removeAllMarkers: visits every key of the dictionary once (in an order
     the model leaves open, returned as `order`), removing each live marker,
     then refreshes once.
     */
    method RemoveAllMarkers() returns (ghost order: seq<string>)
      modifies this`markers, this`trace
      ensures markers == AllCleared(old(markers))
      ensures Enumerates(order, old(markers).Keys)
      ensures trace == old(trace) + RemoveAllEvents(old(markers), order) + [RefreshMapState]
      ensures |RemoveAllEvents(old(markers), order)| == |LiveNames(old(markers))|
      ensures forall k :: IsLive(old(markers), k) ==>
                DoRemoveMarker(old(markers)[k].value) in RemoveAllEvents(old(markers), order)
      ensures forall t :: 0 <= t < |RemoveAllEvents(old(markers), order)| ==>
                exists k :: IsLive(old(markers), k)
                  && RemoveAllEvents(old(markers), order)[t] == DoRemoveMarker(old(markers)[k].value)
    {
      ghost var m0 := markers;
      ghost var t0 := trace;
      var keys := markers.Keys;
      order := [];
      while keys != {}
        invariant keys <= m0.Keys
        invariant markers.Keys == m0.Keys
        invariant forall k :: k in markers ==> markers[k] == if k in keys then m0[k] else None
        invariant forall i, j :: 0 <= i < j < |order| ==> order[i] != order[j]
        invariant forall k :: k in order <==> k in m0.Keys - keys
        invariant trace == t0 + RemoveAllEvents(m0, order)
        decreases keys
      {
        var k :| k in keys;
        assert k !in order;
        assert RemovalEvents(markers, k) == RemovalEvents(m0, k);
        RemoveMarkerHelper(k);
        keys := keys - {k};
        assert (order + [k])[..|order|] == order;
        order := order + [k];
      }
      trace := trace + [RefreshMapState];
      assert markers == AllCleared(m0);
      RemoveAllEventsCount(m0, order);
    }

    /**
     removeMap: removes every marker (with its one refresh), then calls
     doRemoveMap, then drops the map object.
     */
    method RemoveMap() returns (ghost order: seq<string>)
      modifies this`markers, this`mapObj, this`trace
      ensures markers == AllCleared(old(markers)) && LiveNames(markers) == {}
      ensures mapObj == None && !IsInitialized()
      ensures Enumerates(order, old(markers).Keys)
      ensures trace == old(trace) + RemoveAllEvents(old(markers), order) + [RefreshMapState, DoRemoveMap]
      ensures |RemoveAllEvents(old(markers), order)| == |LiveNames(old(markers))|
      ensures forall k :: IsLive(old(markers), k) ==>
                DoRemoveMarker(old(markers)[k].value) in RemoveAllEvents(old(markers), order)
    {
      order := RemoveAllMarkers();
      trace := trace + [DoRemoveMap];
      mapObj := None;
    }

    /** setCenterCoordinates: state first, then the provider, the refresh and the store. */
    method SetCenterCoordinates(position: LatLng) returns (r: Outcome)
      modifies this`mapState, this`trace
      ensures old(mapState) == None ==>
                r == Threw(MapStateUndefined) && mapState == None && trace == old(trace)
      ensures old(mapState).Some? ==>
                && r == Completed
                && mapState == Some(old(mapState).value.(center := position))
                && mapState.value.center == position
                && mapState.value.zoom == old(mapState).value.zoom
                && mapState.value.bounds == old(mapState).value.bounds
                && trace == old(trace) + [DoSetCenterCoordinates(position), RefreshMapState, UpdateMapState(mapState)]
    {
      if mapState == None {
        return Threw(MapStateUndefined);
      }
      mapState := Some(mapState.value.(center := position));
      trace := trace + [DoSetCenterCoordinates(position)];
      trace := trace + [RefreshMapState];
      DispatchMapState();
      r := Completed;
    }

    /** setZoom: the same order as setCenterCoordinates, for the zoom level. */
    method SetZoom(zoom: real) returns (r: Outcome)
      modifies this`mapState, this`trace
      ensures old(mapState) == None ==>
                r == Threw(MapStateUndefined) && mapState == None && trace == old(trace)
      ensures old(mapState).Some? ==>
                && r == Completed
                && mapState == Some(old(mapState).value.(zoom := zoom))
                && mapState.value.zoom == zoom
                && mapState.value.center == old(mapState).value.center
                && mapState.value.bounds == old(mapState).value.bounds
                && trace == old(trace) + [DoSetZoom(zoom), RefreshMapState, UpdateMapState(mapState)]
    {
      if mapState == None {
        return Threw(MapStateUndefined);
      }
      mapState := Some(mapState.value.(zoom := zoom));
      trace := trace + [DoSetZoom(zoom)];
      trace := trace + [RefreshMapState];
      DispatchMapState();
      r := Completed;
    }

    /** doDestroySelf: destroying the view removes its map. */
    method DoDestroySelf() returns (ghost order: seq<string>)
      modifies this`markers, this`mapObj, this`trace
      ensures markers == AllCleared(old(markers))
      ensures !IsInitialized()
      ensures Enumerates(order, old(markers).Keys)
      ensures trace == old(trace) + RemoveAllEvents(old(markers), order) + [RefreshMapState, DoRemoveMap]
    {
      order := RemoveMap();
    }
  }
}
