/**
  The live-metrics channel: the server pushes the GPU and storage lists over
  a websocket (server/routes.ts), and the client hook
  (client/src/hooks/use-websocket.ts) reconciles them into its query cache,
  replacing a cached list only when its serialisation differs, and tracks
  whether the socket is connected. Timers and reconnection delays are not
  modelled: the five-second tick and the three-second retry are just events.
 */
module LiveMetrics {
  import opened Wrappers
  import opened Schema
  import MemStorage

  /** The `data` member of a message; a list missing from it is `None`. */
  datatype MetricsData = MetricsData(gpus: Option<seq<Gpu>>, storage: Option<seq<Storage>>, timestamp: string)

  /**
    A websocket message as the client sees it. `Unparseable` covers text that
    is not JSON and JSON that is not an object; `data` is `None` when the
    member is missing or `null`.
   */
  datatype Message = Unparseable | Parsed(kind: Json, data: Option<MetricsData>)

  const MetricsUpdate := "metrics_update"

  /** The payload the server sends on each tick while the socket is open. */
  function MetricsPayload(s: MemStorage.Store, timestamp: string): (m: Message)
    ensures m.Parsed? && m.kind == Str(MetricsUpdate) && m.data.Some?
    ensures m.data.value.gpus == Some(MemStorage.AllGpus(s))
    ensures m.data.value.storage == Some(MemStorage.AllStorage(s))
  {
    Parsed(Str(MetricsUpdate), Some(MetricsData(Some(MemStorage.AllGpus(s)), Some(MemStorage.AllStorage(s)), timestamp)))
  }

  /** The two cached query results (`None`: not fetched yet). */
  datatype Cache = Cache(gpus: Option<seq<Gpu>>, storage: Option<seq<Storage>>)

  /**
    The result of handling one message: the new cache and, per list, whether
    the cache now holds a different object (which re-renders its readers).
   */
  datatype Outcome = Outcome(cache: Cache, gpusChanged: bool, storageChanged: bool)

  /**
    One `setQueryData` updater: keep the cached value when the incoming one
    serialises the same, otherwise take the incoming one. An absent incoming
    list makes the updater return `undefined`, which leaves the cache as it is.
   */
  function ReconcileSlot<T(==)>(current: Option<seq<T>>, incoming: Option<seq<T>>): (r: (Option<seq<T>>, bool))
    ensures r.1 <==> incoming.Some? && incoming != current
    ensures r.0 == if incoming.Some? then incoming else current
  {
    if incoming.None? || incoming == current then (current, false) else (incoming, true)
  }

  /** `ws.onmessage`. Anything but a well-formed metrics update leaves the cache alone. */
  function Receive(c: Cache, m: Message): (r: Outcome)
    ensures !(m.Parsed? && m.kind == Str(MetricsUpdate) && m.data.Some?) ==> r == Outcome(c, false, false)
    ensures m.Parsed? && m.kind == Str(MetricsUpdate) && m.data.Some? ==>
      && r.cache.gpus == (if m.data.value.gpus.Some? then m.data.value.gpus else c.gpus)
      && r.cache.storage == (if m.data.value.storage.Some? then m.data.value.storage else c.storage)
      && (r.gpusChanged <==> m.data.value.gpus.Some? && m.data.value.gpus != c.gpus)
      && (r.storageChanged <==> m.data.value.storage.Some? && m.data.value.storage != c.storage)
  {
    if m.Parsed? && m.kind == Str(MetricsUpdate) && m.data.Some? then
      var g := ReconcileSlot(c.gpus, m.data.value.gpus);
      var v := ReconcileSlot(c.storage, m.data.value.storage);
      Outcome(Cache(g.0, v.0), g.1, v.1)
    else Outcome(c, false, false)
  }

  /** Handling the same message twice: the second time nothing changes. */
  lemma ReceiveIdempotent(c: Cache, m: Message)
    ensures var once := Receive(c, m);
      Receive(once.cache, m) == Outcome(once.cache, false, false)
  {
  }

  /**
    After a server tick the cache mirrors the repository's lists; a later
    tick over an unchanged repository re-renders nothing, although its
    timestamp differs.
   */
  lemma UnchangedRepositoryIsQuiet(c: Cache, s: MemStorage.Store, t1: string, t2: string)
    ensures Receive(c, MetricsPayload(s, t1)).cache == Cache(Some(MemStorage.AllGpus(s)), Some(MemStorage.AllStorage(s)))
    ensures var after := Receive(c, MetricsPayload(s, t1)).cache;
      Receive(after, MetricsPayload(s, t2)) == Outcome(after, false, false)
  {
  }

  // ---------------------------------------------------------------------------
  // Connection state
  // ---------------------------------------------------------------------------

  datatype SocketEvent = Opened | Received(m: Message) | Closed | Errored

  /** `isConnected` after a sequence of socket events: `false` initially, set by open, cleared by close. */
  function IsConnected(events: seq<SocketEvent>): (r: bool)
    ensures r ==> Opened in events
    ensures Closed !in events ==> (r <==> Opened in events)
  {
    if |events| == 0 then false
    else match events[|events| - 1]
      case Opened => true
      case Closed => false
      case _ => IsConnected(events[..|events| - 1])
  }

  /** Connected exactly when some open event has not been followed by a close. */
  lemma {:induction false} IsConnectedIffOpenNotClosed(events: seq<SocketEvent>)
    ensures IsConnected(events) <==>
      exists i :: 0 <= i < |events| && events[i] == Opened && forall j :: i < j < |events| ==> events[j] != Closed
  {
    if |events| > 0 {
      var n := |events| - 1;
      var init := events[..n];
      IsConnectedIffOpenNotClosed(init);
      match events[n]
      case Opened =>
        assert events[n] == Opened;
      case Closed =>
      case Received(_) =>
        OpenNotClosedExtends(events, n);
      case Errored =>
        OpenNotClosedExtends(events, n);
    }
  }

  /** An event other than open or close does not change whether an open is still live. */
  lemma OpenNotClosedExtends(events: seq<SocketEvent>, n: nat)
    requires n == |events| - 1 && events[n] != Opened && events[n] != Closed
    ensures (exists i :: 0 <= i < |events| && events[i] == Opened && forall j :: i < j < |events| ==> events[j] != Closed)
        <==> (exists i :: 0 <= i < n && events[..n][i] == Opened && forall j :: i < j < n ==> events[..n][j] != Closed)
  {
    if exists i :: 0 <= i < |events| && events[i] == Opened && forall j :: i < j < |events| ==> events[j] != Closed {
      var i :| 0 <= i < |events| && events[i] == Opened && forall j :: i < j < |events| ==> events[j] != Closed;
      assert i < n;
      assert events[..n][i] == Opened;
    }
    if exists i :: 0 <= i < n && events[..n][i] == Opened && forall j :: i < j < n ==> events[..n][j] != Closed {
      var i :| 0 <= i < n && events[..n][i] == Opened && forall j :: i < j < n ==> events[..n][j] != Closed;
      assert events[i] == Opened;
    }
  }

  /** The cache after a sequence of socket events: only received messages touch it. */
  function CacheAfter(c: Cache, events: seq<SocketEvent>): Cache {
    if |events| == 0 then c
    else
      var before := CacheAfter(c, events[..|events| - 1]);
      match events[|events| - 1]
      case Received(m) => Receive(before, m).cache
      case _ => before
  }

  /** Disconnecting keeps the last lists shown: a close or an error never clears the cache. */
  lemma DisconnectKeepsCache(c: Cache, events: seq<SocketEvent>, e: SocketEvent)
    requires !e.Received?
    ensures CacheAfter(c, events + [e]) == CacheAfter(c, events)
  {
    assert (events + [e])[..|events|] == events;
  }
}
