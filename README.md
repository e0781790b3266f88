# BaseMapRender: the map view coordinator

This project models the coordinator that every map view shares. It is the
abstract `BaseMapRender` class of a UI application. It sits between the
application and a map provider (one subclass per map backend), and it owns
three pieces of state:

- the provider's map object (`_mapObj`, modelled as `mapObj: Option<MapObj>`).
  `isInitialized` holds exactly when this is non-null.
- the map state mirrored into the application store (`mapState`: center,
  optional bounds, zoom). It is `Option<MapState>` because it is undefined
  until `loadMap` copies it from the store.
- the marker dictionary `markers`, from reference name to provider marker
  handle. It is updated in place. Removing a marker writes `null` (`None`)
  and keeps the key, so the live markers are the keys with a non-null value.

Every public operation calls the abstract provider hooks (`doLoadMap`,
`doAddMarker`, `doRemoveMarker`, `doRemoveMap`, `doSetCenterCoordinates`,
`doSetZoom`, `initCallbackListeners`), its own `refreshMapState` hook and the
dispatcher in a fixed order. The hooks are provider code, so they stay
uninterpreted. Each call appends one `Event` to a ghost `trace`. What a hook
returns (the marker handle, the settled result of the asynchronous map load)
is a method parameter.

Files:

- `mapModels.dfy`, module `MapModels`: the records of the map interface
  (`LatLng`, `MarkerParams`, `Bounds`, `MapState`, the `addMarkers` entry).
- `mapRenderSpec.dfy`, module `MapRenderSpec`: handles, trace events,
  outcomes, and each registry operation as a function on the dictionary.
  It also holds the lemmas about batches, streams, removing every marker and
  interleaved add/remove calls.
- `baseMapRender.dfy`, module `MapRender`: the class `BaseMapRender` with
  the fields above. Every method states its new registry, map object, map
  state and trace.
- `scenarios.dfy`, module `MapRenderScenarios`: client runs that derive the
  documented behaviours from the class contracts alone.

Behaviours of the code that the model keeps as written:

- `removeMarker` of an absent or already removed name makes no provider call
  but still calls `refreshMapState` once.
- Removal leaves the key in the dictionary with a null value, so after
  `removeMap` the registry keeps its keys and holds no live marker.
- `loadMap` replaces `mapState` from the store before it awaits the
  provider, so a failed load has still changed `mapState`. Only the map
  object and the markers are as before.
- `addMarker` on a name that already holds a live handle overwrites it
  without calling `doRemoveMarker` for the old handle.
- `addMarkers([])` refreshes once, while an empty run of `streamAddMarker`
  refreshes never: the two coincide only for a non-empty batch
  (`AddMarkersIsStreamRun`).
- Nothing in the coordinator checks `isInitialized` before a marker or
  viewport operation. Before `loadMap`, `setCenterCoordinates` and `setZoom`
  throw (a field write on an undefined `mapState`), and the model returns
  `Threw(MapStateUndefined)` with nothing changed.

## Model

| member | source | states |
|---|---|---|
| MapRender.BaseMapRender.constructor | src/view/views/mapRender/baseMapRender.ts:13-26 | a new view has no map object (not initialized), an empty marker dictionary, no map state and has made no calls |
| MapRender.BaseMapRender.IsInitialized | src/view/views/mapRender/baseMapRender.ts:24-26 | the view is initialized exactly when it holds a (non-null) map object |
| MapRender.BaseMapRender.DispatchMapState | src/view/views/mapRender/baseMapRender.ts:28-30 | one UpdateMapState message carrying the current map state is sent |
| MapRender.BaseMapRender.LoadMap | src/view/views/mapRender/baseMapRender.ts:47-68 | the store's map state is copied first; on success the map object is recorded (initialized) and the calls are doLoadMap, initCallbackListeners, one Debug log; on failure the same failure is thrown, one Error log carrying it is sent, and the map object and markers are unchanged |
| MapRender.BaseMapRender.AddMarkerHelper | src/view/views/mapRender/baseMapRender.ts:92-94 | exactly one doAddMarker call and the name now holds its handle |
| MapRender.BaseMapRender.AddMarker | src/view/views/mapRender/baseMapRender.ts:70-73 | one doAddMarker, then one refresh; the name holds the new handle, a previous handle is overwritten with no doRemoveMarker, every other entry is unchanged |
| MapRender.BaseMapRender.StreamAddMarker | src/view/views/mapRender/baseMapRender.ts:75-80 | stores the handle like addMarker; refreshes once when isLast, never otherwise |
| MapRender.BaseMapRender.AddMarkers | src/view/views/mapRender/baseMapRender.ts:82-90 | one doAddMarker per entry in list order, then exactly one refresh (also for an empty list); with distinct names every listed name holds its new handle; unlisted entries are unchanged |
| MapRender.BaseMapRender.RemoveMarkerHelper | src/view/views/mapRender/baseMapRender.ts:108-115 | a live handle is passed to doRemoveMarker and its entry becomes null; an absent or null name causes no call and no change |
| MapRender.BaseMapRender.RemoveMarker | src/view/views/mapRender/baseMapRender.ts:96-99 | for a live name one doRemoveMarker with its handle then one refresh, the key kept with null; for an absent or null name the dictionary is unchanged and the only call is one refresh |
| MapRender.BaseMapRender.RemoveAllMarkers | src/view/views/mapRender/baseMapRender.ts:101-106 | every key is visited once; one doRemoveMarker per live entry (as many calls as live names, every live name's handle among them, no other handle), then one refresh; afterwards every entry is null and the key set is unchanged |
| MapRender.BaseMapRender.RemoveMap | src/view/views/mapRender/baseMapRender.ts:117-125 | all markers removed as by removeAllMarkers (its one refresh included, every live handle passed to doRemoveMarker), then doRemoveMap, then the map object is cleared so the view is not initialized |
| MapRender.BaseMapRender.SetCenterCoordinates | src/view/views/mapRender/baseMapRender.ts:127-132 | the center becomes the position with zoom and bounds unchanged, and the calls are doSetCenterCoordinates, refresh, UpdateMapState with the new state, in that order; before a load it throws and changes nothing |
| MapRender.BaseMapRender.SetZoom | src/view/views/mapRender/baseMapRender.ts:134-139 | the zoom becomes the given level with center and bounds unchanged, and the calls are doSetZoom, refresh, UpdateMapState with the new state, in that order; before a load it throws and changes nothing |
| MapRender.BaseMapRender.DoDestroySelf | src/view/views/mapRender/baseMapRender.ts:141-143 | destroying the view removes its map: no live marker, not initialized |
| MapRenderSpec.Stored | src/view/views/mapRender/baseMapRender.ts:92-94 | storing a handle makes the name live with that handle, adds the name to the keys and keeps every other entry |
| MapRenderSpec.Cleared | src/view/views/mapRender/baseMapRender.ts:108-115 | clearing keeps the key set, leaves the name not live, nulls a live entry, keeps every other entry, and changes nothing when the name was not live |
| MapRenderSpec.RemovalEvents | src/view/views/mapRender/baseMapRender.ts:108-113 | a removal calls doRemoveMarker exactly once, with the held handle, when the name is live, and not at all otherwise |
| MapRenderSpec.AllCleared | src/view/views/mapRender/baseMapRender.ts:101-106 | removing every marker keeps the key set and leaves no live name |
| MapRenderSpec.AddMarkersIsStreamRun | src/view/views/mapRender/baseMapRender.ts:75-90 | for a non-empty list, addMarkers makes the same calls in the same order as streamAddMarker over the list with isLast on the last entry only; for an empty list addMarkers refreshes once and the stream makes no call |
| MapRenderSpec.AddEventsAreAdds | src/view/views/mapRender/baseMapRender.ts:86-88 | a batch makes one doAddMarker per entry, in list order, with that entry's name, parameters and handle |
| MapRenderSpec.StreamRunRefreshesOnceAtEnd | src/view/views/mapRender/baseMapRender.ts:75-80 | a non-empty stream with isLast on its final call refreshes exactly once, after every doAddMarker |
| MapRenderSpec.StoredAllAt | src/view/views/mapRender/baseMapRender.ts:82-94 | after a batch with distinct names, each listed name holds the handle made for it |
| MapRenderSpec.StoredAllFrame | src/view/views/mapRender/baseMapRender.ts:82-94 | a batch adds exactly its names to the keys and keeps every entry it does not name |
| MapRenderSpec.RemoveAllEventsCount | src/view/views/mapRender/baseMapRender.ts:101-115 | visiting every key once calls doRemoveMarker exactly once per live marker: the number of calls is the number of live names, every live name's handle is passed, and each call passes a handle the dictionary held |
| MapRenderSpec.RemoveAllEventsCover | src/view/views/mapRender/baseMapRender.ts:101-113 | visiting a live name passes its handle to doRemoveMarker |
| MapRenderSpec.LastCallWins | src/view/views/mapRender/baseMapRender.ts:92-115 | after any sequence of addMarker/removeMarker calls a name holds the handle of its last add if its last call was an add, nothing live if its last call was a remove, and its old entry if no call named it |
| MapRenderSpec.LiveNamesAfter | src/view/views/mapRender/baseMapRender.ts:92-115 | from an empty dictionary, the live names after a sequence of adds and removes are exactly the names whose last call was an add |
| MapRenderScenarios.FailedLoad | src/view/views/mapRender/baseMapRender.ts:47-68 | a load whose provider call rejects throws that same failure and leaves the view not initialized with no live marker |
| MapRenderScenarios.AddThenRemove | src/view/views/mapRender/baseMapRender.ts:70-115 | after a load, adding "a" makes exactly "a" live; removing the never-added "b" and then "a" leaves nothing live while the key "a" stays |
| MapRenderScenarios.Recenter | src/view/views/mapRender/baseMapRender.ts:127-132 | after a load, recentering keeps the new center and the store's zoom, and the last call is the UpdateMapState message carrying the store's state with the new center |
| MapRenderScenarios.Teardown | src/view/views/mapRender/baseMapRender.ts:117-125 | whatever batch of markers was added, removing the map leaves the view not initialized with no live marker |

## Left out

- DOM work: the container markup and the unique id of `doInit`, the
  element lookup and style writes in `loadMap`, and detaching the view from
  its parent node in `removeMap`. The container id is a constructor
  parameter (`divId`).
- The click stream (`markerClicked`, `markerClicked$`): events are emitted
  by subclass listeners, which are not part of this model, and are delivered
  asynchronously.
- The `mapObj` getter, the static `isMapView` flag and the empty
  `onPlacedInDocument` hook: they carry no behaviour.
- The dispatcher, the store and the logger: each dispatch is a trace event,
  and the store's map state is a parameter of `LoadMap`.
- The `async`/`await` suspension of `loadMap`: the settled result of
  `doLoadMap` is a parameter. Concurrent calls during a pending load are not
  modelled.
- MapRender.BaseMapRender.LoadMap: a `doLoadMap` that resolves to a falsy
  value (which would leave the view not initialized) and an
  `initCallbackListeners` that throws (which would be logged as an error
  after the map object was set) are not modelled. Provider hooks other than
  `doLoadMap` are taken never to throw.
- `refreshMapState` is a subclass hook: the model records the call and takes
  it to leave the coordinator's own fields unchanged.
- Aliasing of `mapState`: the source keeps a reference to the store's own
  map state object and writes `center` and `zoom` into it in place. The model
  copies the value, so a change the store sees through that shared object is
  not captured.
- MapRender.BaseMapRender.RemoveAllMarkers: the visiting order of
  `Object.keys` is not modelled (integer-like names first in ascending
  numeric order, then the other names in insertion order). The method
  returns the order it used as a ghost value, proved to list each key once.
- Markers: the dictionary is a plain object literal, and names that are
  members of `Object.prototype` behave differently there; the model treats
  every name as an ordinary key. `removeMarker` of an inherited name such as
  "toString" finds a truthy function, passes it to `doRemoveMarker` and writes
  an own null key, where the model makes no call. `addMarker("__proto__", …)`
  replaces the object's prototype instead of adding a key, so `Object.keys`
  skips it and `removeAllMarkers` and `removeMap` never remove that marker,
  where the model stores and later removes it.
- JavaScript truthiness in the removal test: a missing key and `null` are
  both "not live", and a handle returned by `doAddMarker` is taken to be
  non-null.
- Floating-point meaning of coordinates and zoom: they are `real` values
  that are only copied.
