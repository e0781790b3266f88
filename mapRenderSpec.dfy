/**
 The vocabulary of a map view's coordinator: the opaque objects the map
 provider hands back, the calls it makes to the provider hooks, to its own
 refresh hook and to the dispatcher (recorded as trace events), and the
 effect of each registry operation as a function on the marker dictionary.
 The lemmas state what sequences of those operations do.
 */
module MapRenderSpec {
  import opened MapModels

  /** An opaque provider marker object as returned by doAddMarker (never null). */
  datatype Handle = Handle(id: nat)

  /** An opaque provider map object as resolved by doLoadMap (never null). */
  datatype MapObj = MapObj(id: nat)

  /** The levels of the log records the coordinator dispatches. */
  datatype LogLevel = Debug | Error

  /** What an operation can throw. */
  datatype Failure =
    | ProviderFailure(reason: string)  // the rejection of doLoadMap, passed on unchanged
    | MapStateUndefined                // a write to a field of mapState before loadMap set it

  /** How a public operation ended. */
  datatype Outcome = Completed | Threw(error: Failure)

  /** How the provider's asynchronous doLoadMap settled. */
  datatype LoadResult = Loaded(obj: MapObj) | Rejected(error: Failure)

  /** One call the coordinator makes outside itself. */
  datatype Event =
    | DoLoadMap(divId: string)
    | InitCallbackListeners
    | DoAddMarker(markerReferenceName: string, params: MarkerParams, handle: Handle)
    | DoRemoveMarker(handle: Handle)
    | DoRemoveMap
    | DoSetCenterCoordinates(position: LatLng)
    | DoSetZoom(zoom: real)
    | RefreshMapState
    | UpdateMapState(state: Option<MapState>)     // dispatcher message UpdateMapState
    | NewLog(level: LogLevel, data: Option<Failure>) // dispatcher message NewLog

  /** The marker dictionary: reference name to handle; `None` is the null a removal leaves. */
  type Markers = map<string, Option<Handle>>

  /** A name holds a live handle: present and not null (a missing key and null are both falsy). */
  predicate IsLive(m: Markers, name: string)
  {
    name in m && m[name].Some?
  }

  /** The names whose markers are currently drawn. */
  function LiveNames(m: Markers): set<string>
  {
    set k | k in m && m[k].Some?
  }

  /** addMarkerHelper: the new handle replaces whatever the name held. */
  function Stored(m: Markers, name: string, h: Handle): (r: Markers)
    ensures r.Keys == m.Keys + {name}
    ensures IsLive(r, name) && r[name] == Some(h)
    ensures forall k :: k in m && k != name ==> r[k] == m[k]
  {
    m[name := Some(h)]
  }

  /** removeMarkerHelper: a live entry becomes null, its key stays; anything else is left alone. */
  function Cleared(m: Markers, name: string): (r: Markers)
    ensures r.Keys == m.Keys
    ensures !IsLive(r, name)
    ensures IsLive(m, name) ==> r[name] == None
    ensures forall k :: k in m && k != name ==> r[k] == m[k]
    ensures !IsLive(m, name) ==> r == m
  {
    if IsLive(m, name) then m[name := None] else m
  }

  /** The provider calls removeMarkerHelper makes: one doRemoveMarker for a live entry, none otherwise. */
  function RemovalEvents(m: Markers, name: string): (r: seq<Event>)
    ensures |r| == if IsLive(m, name) then 1 else 0
    ensures IsLive(m, name) ==> r[0] == DoRemoveMarker(m[name].value)
  {
    if IsLive(m, name) then [DoRemoveMarker(m[name].value)] else []
  }

  /** removeAllMarkers: every key kept, every value null. */
  function AllCleared(m: Markers): (r: Markers)
    ensures r.Keys == m.Keys
    ensures forall k :: k in r ==> r[k] == None
    ensures LiveNames(r) == {}
  {
    map k | k in m :: None
  }

  /** The doRemoveMarker calls made while visiting `order`, in that order, against registry `m`. */
  function RemoveAllEvents(m: Markers, order: seq<string>): seq<Event>
  {
    if order == [] then []
    else RemoveAllEvents(m, order[..|order| - 1]) + RemovalEvents(m, order[|order| - 1])
  }

  /** `order` lists every element of `s` exactly once. */
  ghost predicate Enumerates(order: seq<string>, s: set<string>)
  {
    && (forall i, j :: 0 <= i < j < |order| ==> order[i] != order[j])
    && (forall k :: k in order <==> k in s)
  }

  /** The reference names of a batch, in order. */
  function Names(entries: seq<MarkerEntry>): (r: seq<string>)
    ensures |r| == |entries|
    ensures forall i :: 0 <= i < |entries| ==> r[i] == entries[i].markerReferenceName
  {
    if entries == [] then []
    else Names(entries[..|entries| - 1]) + [entries[|entries| - 1].markerReferenceName]
  }

  /** No name occurs twice. */
  ghost predicate Distinct(names: seq<string>)
  {
    forall i, j :: 0 <= i < j < |names| ==> names[i] != names[j]
  }

  /** addMarkers' effect on the registry: addMarkerHelper for each entry, in list order. */
  function StoredAll(m: Markers, entries: seq<MarkerEntry>, handles: seq<Handle>): Markers
    requires |handles| == |entries|
  {
    if entries == [] then m
    else
      var n := |entries| - 1;
      Stored(StoredAll(m, entries[..n], handles[..n]), entries[n].markerReferenceName, handles[n])
  }

  /** addMarkers' doAddMarker calls, in list order. */
  function AddEvents(entries: seq<MarkerEntry>, handles: seq<Handle>): seq<Event>
    requires |handles| == |entries|
  {
    if entries == [] then []
    else
      var n := |entries| - 1;
      AddEvents(entries[..n], handles[..n]) + [DoAddMarker(entries[n].markerReferenceName, entries[n].params, handles[n])]
  }

  /** The calls one streamAddMarker makes. */
  function StreamEvents(e: MarkerEntry, h: Handle, isLast: bool): seq<Event>
  {
    [DoAddMarker(e.markerReferenceName, e.params, h)] + (if isLast then [RefreshMapState] else [])
  }

  /** The calls of a run of streamAddMarker over `entries`, with isLast set on the final call only. */
  function StreamRun(entries: seq<MarkerEntry>, handles: seq<Handle>): seq<Event>
    requires |handles| == |entries|
  {
    if entries == [] then []
    else StreamEvents(entries[0], handles[0], |entries| == 1) + StreamRun(entries[1..], handles[1..])
  }

  // ---------------------------------------------------------------------------
  // Lemmas about a batch of adds

  /** AddEvents unfolded at the front. */
  lemma {:induction false} AddEventsFront(entries: seq<MarkerEntry>, handles: seq<Handle>)
    requires |handles| == |entries| > 0
    ensures AddEvents(entries, handles)
         == [DoAddMarker(entries[0].markerReferenceName, entries[0].params, handles[0])]
            + AddEvents(entries[1..], handles[1..])
  {
    var n := |entries| - 1;
    if n > 0 {
      AddEventsFront(entries[..n], handles[..n]);
      assert entries[..n][1..] == entries[1..][..n - 1];
      assert handles[..n][1..] == handles[1..][..n - 1];
    } else {
      assert entries[1..] == [];
    }
  }

  /**
   addMarkers is a run of streamAddMarker with isLast on the last entry only:
   the same provider calls in the same order and one refresh at the end.
   For an empty batch the two differ: addMarkers still refreshes once.
   */
  lemma {:induction false} AddMarkersIsStreamRun(entries: seq<MarkerEntry>, handles: seq<Handle>)
    requires |handles| == |entries|
    ensures entries != [] ==> AddEvents(entries, handles) + [RefreshMapState] == StreamRun(entries, handles)
    ensures entries == [] ==> AddEvents(entries, handles) + [RefreshMapState] == [RefreshMapState]
                              && StreamRun(entries, handles) == []
  {
    if |entries| == 1 {
      AddEventsFront(entries, handles);
      assert AddEvents(entries[1..], handles[1..]) == [];
    } else if |entries| > 1 {
      AddEventsFront(entries, handles);
      AddMarkersIsStreamRun(entries[1..], handles[1..]);
    }
  }

  /** A batch's own calls are all doAddMarker calls, one per entry, for that entry's name and handle. */
  lemma {:induction false} AddEventsAreAdds(entries: seq<MarkerEntry>, handles: seq<Handle>)
    requires |handles| == |entries|
    ensures |AddEvents(entries, handles)| == |entries|
    ensures forall t :: 0 <= t < |entries| ==>
              AddEvents(entries, handles)[t]
              == DoAddMarker(entries[t].markerReferenceName, entries[t].params, handles[t])
  {
    if entries != [] {
      var n := |entries| - 1;
      AddEventsAreAdds(entries[..n], handles[..n]);
    }
  }

  /**
   A stream of streamAddMarker calls with isLast on the final call refreshes
   exactly once, as its very last call, after every doAddMarker.
   */
  lemma {:induction false} StreamRunRefreshesOnceAtEnd(entries: seq<MarkerEntry>, handles: seq<Handle>)
    requires |handles| == |entries| > 0
    ensures |StreamRun(entries, handles)| == |entries| + 1
    ensures StreamRun(entries, handles)[|entries|] == RefreshMapState
    ensures forall t :: 0 <= t < |entries| ==> StreamRun(entries, handles)[t] != RefreshMapState
  {
    AddMarkersIsStreamRun(entries, handles);
    AddEventsAreAdds(entries, handles);
  }

  /** After a batch whose names are distinct, every name of the batch holds the handle made for it. */
  lemma {:induction false} StoredAllAt(m: Markers, entries: seq<MarkerEntry>, handles: seq<Handle>, i: nat)
    requires |handles| == |entries|
    requires Distinct(Names(entries))
    requires i < |entries|
    ensures IsLive(StoredAll(m, entries, handles), entries[i].markerReferenceName)
    ensures StoredAll(m, entries, handles)[entries[i].markerReferenceName] == Some(handles[i])
  {
    var n := |entries| - 1;
    var before := StoredAll(m, entries[..n], handles[..n]);
    assert StoredAll(m, entries, handles) == Stored(before, entries[n].markerReferenceName, handles[n]);
    if i < n {
      var k := entries[i].markerReferenceName;
      assert k != entries[n].markerReferenceName by {
        assert Names(entries)[i] != Names(entries)[n];
      }
      assert Distinct(Names(entries[..n])) by {
        forall a, b | 0 <= a < b < n ensures Names(entries[..n])[a] != Names(entries[..n])[b] {
          assert Names(entries)[a] != Names(entries)[b];
        }
      }
      assert entries[..n][i] == entries[i];
      StoredAllAt(m, entries[..n], handles[..n], i);
    }
  }


  /** A batch touches only its own names: the keys grow by them and every other entry is kept. */
  lemma {:induction false} StoredAllFrame(m: Markers, entries: seq<MarkerEntry>, handles: seq<Handle>)
    requires |handles| == |entries|
    ensures StoredAll(m, entries, handles).Keys == m.Keys + set i | 0 <= i < |entries| :: entries[i].markerReferenceName
    ensures forall k :: k in m && k !in Names(entries) ==> StoredAll(m, entries, handles)[k] == m[k]
  {
    if entries != [] {
      var n := |entries| - 1;
      StoredAllFrame(m, entries[..n], handles[..n]);
      assert Names(entries) == Names(entries[..n]) + [entries[n].markerReferenceName];
      var before := set i | 0 <= i < n :: entries[..n][i].markerReferenceName;
      var after := set i | 0 <= i < |entries| :: entries[i].markerReferenceName;
      assert after == before + {entries[n].markerReferenceName} by {
        forall k | k in after ensures k in before + {entries[n].markerReferenceName} {
          var i :| 0 <= i < |entries| && entries[i].markerReferenceName == k;
          if i < n { assert entries[..n][i] == entries[i]; }
        }
        forall k | k in before ensures k in after {
          var i :| 0 <= i < n && entries[..n][i].markerReferenceName == k;
          assert entries[i] == entries[..n][i];
        }
      }
    }
  }

  // ---------------------------------------------------------------------------
  // Lemmas about removing every marker

  /** The names of `order` that hold a live handle in `m`. */
  function LiveAmong(m: Markers, order: seq<string>): set<string>
  {
    set k | k in order && IsLive(m, k)
  }

  /** Visiting distinct names makes exactly one doRemoveMarker call per live name among them. */
  lemma {:induction false} RemoveAllEventsCountAmong(m: Markers, order: seq<string>)
    requires forall i, j :: 0 <= i < j < |order| ==> order[i] != order[j]
    ensures |RemoveAllEvents(m, order)| == |LiveAmong(m, order)|
  {
    if order != [] {
      var n := |order| - 1;
      var last := order[n];
      RemoveAllEventsCountAmong(m, order[..n]);
      assert last !in order[..n] by {
        forall i | 0 <= i < n ensures order[..n][i] != last {
          assert order[i] != order[n];
        }
      }
      assert order == order[..n] + [last];
      if IsLive(m, last) {
        assert LiveAmong(m, order) == LiveAmong(m, order[..n]) + {last};
      } else {
        assert LiveAmong(m, order) == LiveAmong(m, order[..n]);
      }
    }
  }

  /** Every call made while visiting `order` removes a handle that was live in `m`. */
  lemma {:induction false} RemoveAllEventsAreLive(m: Markers, order: seq<string>, t: nat)
    requires t < |RemoveAllEvents(m, order)|
    ensures exists k :: k in order && IsLive(m, k) && RemoveAllEvents(m, order)[t] == DoRemoveMarker(m[k].value)
  {
    var n := |order| - 1;
    var prefix := RemoveAllEvents(m, order[..n]);
    if t < |prefix| {
      RemoveAllEventsAreLive(m, order[..n], t);
      var k :| k in order[..n] && IsLive(m, k) && prefix[t] == DoRemoveMarker(m[k].value);
      assert k in order;
    } else {
      assert order[n] in order;
    }
  }

  /** Visiting a live name calls doRemoveMarker with its handle. */
  lemma {:induction false} RemoveAllEventsCover(m: Markers, order: seq<string>, k: string)
    requires k in order && IsLive(m, k)
    ensures DoRemoveMarker(m[k].value) in RemoveAllEvents(m, order)
  {
    var n := |order| - 1;
    if order[n] == k {
      assert RemovalEvents(m, k)[0] == DoRemoveMarker(m[k].value);
    } else {
      assert k in order[..n] by {
        var i :| 0 <= i < |order| && order[i] == k;
        assert i < n && order[..n][i] == k;
      }
      RemoveAllEventsCover(m, order[..n], k);
    }
  }

  /**
   removeAllMarkers visits every key once, so it calls doRemoveMarker once per
   live marker: as many calls as live names, every live name's handle among
   them, and only handles the registry held.
   */
  lemma {:induction false} RemoveAllEventsCount(m: Markers, order: seq<string>)
    requires Enumerates(order, m.Keys)
    ensures |RemoveAllEvents(m, order)| == |LiveNames(m)|
    ensures forall k :: IsLive(m, k) ==> DoRemoveMarker(m[k].value) in RemoveAllEvents(m, order)
    ensures forall t :: 0 <= t < |RemoveAllEvents(m, order)| ==>
              exists k :: IsLive(m, k) && RemoveAllEvents(m, order)[t] == DoRemoveMarker(m[k].value)
  {
    RemoveAllEventsCountAmong(m, order);
    assert LiveAmong(m, order) == LiveNames(m);
    forall t | 0 <= t < |RemoveAllEvents(m, order)|
      ensures exists k :: IsLive(m, k) && RemoveAllEvents(m, order)[t] == DoRemoveMarker(m[k].value)
    {
      RemoveAllEventsAreLive(m, order, t);
    }
    forall k | IsLive(m, k) ensures DoRemoveMarker(m[k].value) in RemoveAllEvents(m, order) {
      RemoveAllEventsCover(m, order, k);
    }
  }

  // ---------------------------------------------------------------------------
  // Interleaved addMarker / removeMarker calls

  /** One registry call: addMarker with the handle the provider made, or removeMarker. */
  datatype RegistryOp = AddOp(name: string, handle: Handle) | RemoveOp(name: string)

  function Apply(m: Markers, op: RegistryOp): Markers
  {
    match op
    case AddOp(name, h) => Stored(m, name, h)
    case RemoveOp(name) => Cleared(m, name)
  }

  /** The registry after a sequence of calls, in order. */
  function ApplyAll(m: Markers, ops: seq<RegistryOp>): Markers
  {
    if ops == [] then m else Apply(ApplyAll(m, ops[..|ops| - 1]), ops[|ops| - 1])
  }

  /** The last call in `ops` that names `k`, if any. */
  function LastTouch(ops: seq<RegistryOp>, k: string): Option<RegistryOp>
  {
    if ops == [] then None
    else if ops[|ops| - 1].name == k then Some(ops[|ops| - 1])
    else LastTouch(ops[..|ops| - 1], k)
  }

  /**
   After any sequence of addMarker / removeMarker calls, a name holds the
   handle of its last add when its last call was an add, holds nothing live
   when its last call was a remove, and is as before when no call named it.
   */
  lemma {:induction false} LastCallWins(m: Markers, ops: seq<RegistryOp>, k: string)
    ensures LastTouch(ops, k) == None ==>
              (k in ApplyAll(m, ops) <==> k in m) && (k in m ==> ApplyAll(m, ops)[k] == m[k])
    ensures LastTouch(ops, k).Some? && LastTouch(ops, k).value.AddOp? ==>
              IsLive(ApplyAll(m, ops), k) && ApplyAll(m, ops)[k] == Some(LastTouch(ops, k).value.handle)
    ensures LastTouch(ops, k).Some? && LastTouch(ops, k).value.RemoveOp? ==>
              !IsLive(ApplyAll(m, ops), k)
  {
    if ops != [] {
      LastCallWins(m, ops[..|ops| - 1], k);
    }
  }

  /**
   Starting from the empty registry, the live names are exactly those whose
   last call was an add.
   */
  lemma {:induction false} LiveNamesAfter(ops: seq<RegistryOp>, k: string)
    ensures k in LiveNames(ApplyAll(map[], ops))
        <==> LastTouch(ops, k).Some? && LastTouch(ops, k).value.AddOp?
  {
    LastCallWins(map[], ops, k);
  }
}
