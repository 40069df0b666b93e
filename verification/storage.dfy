/**
  The in-memory repository (`MemStorage`, server/storage.ts): one JavaScript
  Map per entity kind, with list, get, shallow-merge update and create
  operations. The store is an immutable value; every mutating operation
  returns its result together with the store after the call. The clock
  (`new Date()`) and the id generator (`randomUUID()`) are parameters.
 */
module MemStorage {
  import opened Wrappers
  import opened Schema
  import opened Table
  import Sorting
  import Seqs
  import Text

  datatype Store = Store(
    services: Table<Service>,
    gpus: Table<Gpu>,
    storage: Table<Storage>,
    cameras: Table<Camera>,
    captions: Table<Caption>,
    homeAssistant: Option<HomeAssistant>,
    models: Table<Model>,
    events: Table<Event>)

  /** Every collection is a Map: no key twice. */
  predicate Valid(s: Store) {
    && DistinctKeys(s.services) && DistinctKeys(s.gpus) && DistinctKeys(s.storage)
    && DistinctKeys(s.cameras) && DistinctKeys(s.captions) && DistinctKeys(s.models)
    && DistinctKeys(s.events)
  }

  /** The seeded services are stored under their own `id`; `updateService` can break this (see below). */
  predicate ServicesKeyedById(t: Table<Service>) {
    forall i :: 0 <= i < |t| ==> t[i].value.id == t[i].key
  }

  /** Volumes are likewise stored under their own `id`. */
  predicate StorageKeyedById(t: Table<Storage>) {
    forall i :: 0 <= i < |t| ==> t[i].value.id == t[i].key
  }

  // ---------------------------------------------------------------------------
  // Orders used by the list operations
  // ---------------------------------------------------------------------------

  predicate ServiceByName(a: Service, b: Service) { Text.StrLe(a.name, b.name) }
  predicate GpuByName(a: Gpu, b: Gpu) { Text.StrLe(a.name, b.name) }
  predicate StorageByName(a: Storage, b: Storage) { Text.StrLe(a.name, b.name) }
  predicate CameraByName(a: Camera, b: Camera) { Text.StrLe(a.name, b.name) }

  /** `isPinned ? 1 : 0` treats a missing flag as unpinned. */
  predicate Pinned(m: Model) { m.isPinned == Some(true) }

  /** `(b.isPinned ? 1 : 0) - (a.isPinned ? 1 : 0) || a.name.localeCompare(b.name)`. */
  predicate PinnedThenName(a: Model, b: Model) {
    (Pinned(a) && !Pinned(b)) || (Pinned(a) == Pinned(b) && Text.StrLe(a.name, b.name))
  }

  /** Comparator `b.timestamp - a.timestamp`: newest first. */
  predicate CaptionNewestFirst(a: Caption, b: Caption) { a.timestamp >= b.timestamp }
  predicate EventNewestFirst(a: Event, b: Event) { a.timestamp >= b.timestamp }

  lemma NameOrdersAreTotal()
    ensures Sorting.TotalPreorder(ServiceByName)
    ensures Sorting.TotalPreorder(GpuByName)
    ensures Sorting.TotalPreorder(StorageByName)
    ensures Sorting.TotalPreorder(CameraByName)
    ensures Sorting.TotalPreorder(PinnedThenName)
  {
    forall a: string, b: string, c: string | Text.StrLe(a, b) && Text.StrLe(b, c)
      ensures Text.StrLe(a, c)
    {
      Text.StrLeTransitive(a, b, c);
    }
    forall a: string, b: string
      ensures Text.StrLe(a, b) || Text.StrLe(b, a)
    {
      Text.StrLeTotal(a, b);
    }
  }

  // ---------------------------------------------------------------------------
  // List operations
  // ---------------------------------------------------------------------------

  /** `getAllServices`: every stored service once, ordered by name. */
  function AllServices(s: Store): (r: seq<Service>)
    ensures multiset(r) == multiset(Values(s.services))
    ensures forall i, j :: 0 <= i < j < |r| ==> Text.StrLe(r[i].name, r[j].name)
  {
    NameOrdersAreTotal();
    Sorting.SortBySorted(Values(s.services), ServiceByName);
    Sorting.SortBy(Values(s.services), ServiceByName)
  }

  /** `getAllGpus`: every stored GPU once, ordered by name. */
  function AllGpus(s: Store): (r: seq<Gpu>)
    ensures multiset(r) == multiset(Values(s.gpus))
    ensures forall i, j :: 0 <= i < j < |r| ==> Text.StrLe(r[i].name, r[j].name)
  {
    NameOrdersAreTotal();
    Sorting.SortBySorted(Values(s.gpus), GpuByName);
    Sorting.SortBy(Values(s.gpus), GpuByName)
  }

  /** `getAllStorage`: every stored volume once, ordered by name. */
  function AllStorage(s: Store): (r: seq<Storage>)
    ensures multiset(r) == multiset(Values(s.storage))
    ensures forall i, j :: 0 <= i < j < |r| ==> Text.StrLe(r[i].name, r[j].name)
  {
    NameOrdersAreTotal();
    Sorting.SortBySorted(Values(s.storage), StorageByName);
    Sorting.SortBy(Values(s.storage), StorageByName)
  }

  /** `getAllCameras`: every stored camera once, ordered by name. */
  function AllCameras(s: Store): (r: seq<Camera>)
    ensures multiset(r) == multiset(Values(s.cameras))
    ensures forall i, j :: 0 <= i < j < |r| ==> Text.StrLe(r[i].name, r[j].name)
  {
    NameOrdersAreTotal();
    Sorting.SortBySorted(Values(s.cameras), CameraByName);
    Sorting.SortBy(Values(s.cameras), CameraByName)
  }

  /** `getAllModels`: every model once, pinned ones first, by name within each group. */
  function AllModels(s: Store): (r: seq<Model>)
    ensures multiset(r) == multiset(Values(s.models))
    ensures forall i, j :: 0 <= i < j < |r| && Pinned(r[j]) ==> Pinned(r[i])
    ensures forall i, j :: 0 <= i < j < |r| && Pinned(r[i]) == Pinned(r[j]) ==> Text.StrLe(r[i].name, r[j].name)
  {
    NameOrdersAreTotal();
    Sorting.SortBySorted(Values(s.models), PinnedThenName);
    Sorting.SortBy(Values(s.models), PinnedThenName)
  }

  /** `getAllCaptions`: every caption once, newest first. */
  function AllCaptions(s: Store): (r: seq<Caption>)
    ensures multiset(r) == multiset(Values(s.captions))
    ensures forall i, j :: 0 <= i < j < |r| ==> r[i].timestamp >= r[j].timestamp
  {
    Sorting.SortBySorted(Values(s.captions), CaptionNewestFirst);
    Sorting.SortBy(Values(s.captions), CaptionNewestFirst)
  }

  /** Every stored event, newest first: the order `getAllEvents` sorts into before it cuts. */
  function EventsNewestFirst(s: Store): (r: seq<Event>)
    ensures multiset(r) == multiset(Values(s.events))
    ensures forall i, j :: 0 <= i < j < |r| ==> r[i].timestamp >= r[j].timestamp
  {
    Sorting.SortBySorted(Values(s.events), EventNewestFirst);
    Sorting.SortBy(Values(s.events), EventNewestFirst)
  }

  /** `getAllEvents` returns at most this many events. */
  const EventReadLimit: nat := 50

  /**
    `getAllEvents`: the newest-first order cut to its first 50. The cut
    happens on read; the stored log keeps every event.
   */
  function AllEvents(s: Store): (r: seq<Event>)
    ensures |r| == if |s.events| < EventReadLimit then |s.events| else EventReadLimit
    ensures r == EventsNewestFirst(s)[..|r|]
    ensures forall i, j :: 0 <= i < j < |r| ==> r[i].timestamp >= r[j].timestamp
    ensures multiset(r) <= multiset(Values(s.events))
  {
    var all := EventsNewestFirst(s);
    var n := if |all| < EventReadLimit then |all| else EventReadLimit;
    Seqs.PrefixMultiset(all, n);
    all[..n]
  }

  /** An event left out of `getAllEvents` is no newer than any event it returns. */
  lemma ReturnedEventsAreTheNewest(s: Store, e: Event)
    requires e in Values(s.events)
    ensures e !in AllEvents(s) ==> forall x :: x in AllEvents(s) ==> x.timestamp >= e.timestamp
  {
    var r := AllEvents(s);
    if e !in r {
      StoredEventIsSorted(s, e);
      PrefixHoldsTheNewest(EventsNewestFirst(s), |r|, e);
    }
  }

  lemma StoredEventIsSorted(s: Store, e: Event)
    requires e in Values(s.events)
    ensures e in EventsNewestFirst(s)
  {
    assert e in multiset(Values(s.events));
    assert e in multiset(EventsNewestFirst(s));
  }

  /** In a newest-first sequence, an element outside a prefix is no newer than anything in it. */
  lemma PrefixHoldsTheNewest(all: seq<Event>, n: nat, e: Event)
    requires n <= |all|
    requires forall i, j :: 0 <= i < j < |all| ==> all[i].timestamp >= all[j].timestamp
    requires e in all && e !in all[..n]
    ensures forall x :: x in all[..n] ==> x.timestamp >= e.timestamp
  {
    var k :| 0 <= k < |all| && all[k] == e;
    assert forall m :: 0 <= m < n ==> all[..n][m] == all[m];
    assert k >= n;
    forall x | x in all[..n]
      ensures x.timestamp >= e.timestamp
    {
      var i :| 0 <= i < n && all[..n][i] == x;
      assert all[i] == x;
    }
  }

  // ---------------------------------------------------------------------------
  // Get
  // ---------------------------------------------------------------------------

  /** `getService(id)`: the service stored under `id`, or not-found. */
  function GetService(s: Store, id: string): (r: Option<Service>)
    ensures r.Some? <==> id in Keys(s.services)
    ensures r.Some? ==> Entry(id, r.value) in s.services
  {
    Get(s.services, id)
  }

  function GetGpu(s: Store, id: string): (r: Option<Gpu>)
    ensures r.Some? <==> id in Keys(s.gpus)
    ensures r.Some? ==> Entry(id, r.value) in s.gpus
  {
    Get(s.gpus, id)
  }

  function GetStorage(s: Store, id: string): (r: Option<Storage>)
    ensures r.Some? <==> id in Keys(s.storage)
    ensures r.Some? ==> Entry(id, r.value) in s.storage
  {
    Get(s.storage, id)
  }

  function GetCamera(s: Store, id: string): (r: Option<Camera>)
    ensures r.Some? <==> id in Keys(s.cameras)
    ensures r.Some? ==> Entry(id, r.value) in s.cameras
  {
    Get(s.cameras, id)
  }

  // ---------------------------------------------------------------------------
  // Shallow merge: `{ ...entity, ...updates }`
  // ---------------------------------------------------------------------------

  /** One field of a spread: the patch's value if the patch has the field, else the old one. */
  predicate Overlaid<T(==)>(patch: Option<T>, before: T, after: T) {
    after == if patch.Some? then patch.value else before
  }

  /** `Partial<Service>`: each field may be absent; nullable fields may be set to null. */
  datatype ServicePatch = ServicePatch(
    id: Option<string>, name: Option<string>, kind: Option<string>, status: Option<string>,
    url: Option<Option<string>>, containerId: Option<Option<string>>,
    uptime: Option<Option<real>>, lastChecked: Option<Option<Timestamp>>)

  datatype GpuPatch = GpuPatch(
    id: Option<string>, name: Option<string>, utilization: Option<real>,
    vramUsed: Option<real>, vramTotal: Option<real>, temperature: Option<Option<int>>,
    jobsQueued: Option<Option<int>>, lastUpdated: Option<Option<Timestamp>>)

  datatype StoragePatch = StoragePatch(
    id: Option<string>, name: Option<string>, path: Option<string>, usedGB: Option<real>,
    totalGB: Option<real>, usagePercent: Option<real>, kind: Option<string>,
    lastUpdated: Option<Option<Timestamp>>)

  /**
    The body of `PATCH /api/cameras/:id`. `captionEnabled` is the raw JSON
    value (`Undefined` when the key is absent), because the route neither
    parses nor validates it.
   */
  datatype CameraPatch = CameraPatch(
    id: Option<string>, name: Option<string>, enabled: Option<Option<bool>>,
    captionEnabled: Json, rateLimit: Option<Option<int>>,
    thumbnailUrl: Option<Option<string>>, lastCaption: Option<Option<string>>,
    lastCaptionTime: Option<Option<Timestamp>>)

  const NoServiceChange := ServicePatch(None, None, None, None, None, None, None, None)
  const NoCameraChange := CameraPatch(None, None, None, Undefined, None, None, None, None)

  /** Fields present in the patch take the patch's values; all others keep the service's. */
  function MergeService(s: Service, p: ServicePatch): (r: Service)
    ensures Overlaid(p.id, s.id, r.id) && Overlaid(p.name, s.name, r.name)
    ensures Overlaid(p.kind, s.kind, r.kind) && Overlaid(p.status, s.status, r.status)
    ensures Overlaid(p.url, s.url, r.url) && Overlaid(p.containerId, s.containerId, r.containerId)
    ensures Overlaid(p.uptime, s.uptime, r.uptime) && Overlaid(p.lastChecked, s.lastChecked, r.lastChecked)
  {
    Service(
      p.id.GetOr(s.id), p.name.GetOr(s.name), p.kind.GetOr(s.kind), p.status.GetOr(s.status),
      p.url.GetOr(s.url), p.containerId.GetOr(s.containerId), p.uptime.GetOr(s.uptime),
      p.lastChecked.GetOr(s.lastChecked))
  }

  function MergeGpu(g: Gpu, p: GpuPatch): (r: Gpu)
    ensures Overlaid(p.id, g.id, r.id) && Overlaid(p.name, g.name, r.name)
    ensures Overlaid(p.utilization, g.utilization, r.utilization)
    ensures Overlaid(p.vramUsed, g.vramUsed, r.vramUsed) && Overlaid(p.vramTotal, g.vramTotal, r.vramTotal)
    ensures Overlaid(p.temperature, g.temperature, r.temperature)
    ensures Overlaid(p.jobsQueued, g.jobsQueued, r.jobsQueued)
    ensures Overlaid(p.lastUpdated, g.lastUpdated, r.lastUpdated)
  {
    Gpu(
      p.id.GetOr(g.id), p.name.GetOr(g.name), p.utilization.GetOr(g.utilization),
      p.vramUsed.GetOr(g.vramUsed), p.vramTotal.GetOr(g.vramTotal),
      p.temperature.GetOr(g.temperature), p.jobsQueued.GetOr(g.jobsQueued),
      p.lastUpdated.GetOr(g.lastUpdated))
  }

  function MergeStorage(v: Storage, p: StoragePatch): (r: Storage)
    ensures Overlaid(p.id, v.id, r.id) && Overlaid(p.name, v.name, r.name)
    ensures Overlaid(p.path, v.path, r.path) && Overlaid(p.usedGB, v.usedGB, r.usedGB)
    ensures Overlaid(p.totalGB, v.totalGB, r.totalGB)
    ensures Overlaid(p.usagePercent, v.usagePercent, r.usagePercent)
    ensures Overlaid(p.kind, v.kind, r.kind) && Overlaid(p.lastUpdated, v.lastUpdated, r.lastUpdated)
  {
    Storage(
      p.id.GetOr(v.id), p.name.GetOr(v.name), p.path.GetOr(v.path), p.usedGB.GetOr(v.usedGB),
      p.totalGB.GetOr(v.totalGB), p.usagePercent.GetOr(v.usagePercent), p.kind.GetOr(v.kind),
      p.lastUpdated.GetOr(v.lastUpdated))
  }

  function MergeCamera(c: Camera, p: CameraPatch): (r: Camera)
    ensures Overlaid(p.id, c.id, r.id) && Overlaid(p.name, c.name, r.name)
    ensures Overlaid(p.enabled, c.enabled, r.enabled)
    ensures r.captionEnabled == if p.captionEnabled.Undefined? then c.captionEnabled else p.captionEnabled
    ensures Overlaid(p.rateLimit, c.rateLimit, r.rateLimit)
    ensures Overlaid(p.thumbnailUrl, c.thumbnailUrl, r.thumbnailUrl)
    ensures Overlaid(p.lastCaption, c.lastCaption, r.lastCaption)
    ensures Overlaid(p.lastCaptionTime, c.lastCaptionTime, r.lastCaptionTime)
  {
    Camera(
      p.id.GetOr(c.id), p.name.GetOr(c.name), p.enabled.GetOr(c.enabled),
      if p.captionEnabled.Undefined? then c.captionEnabled else p.captionEnabled,
      p.rateLimit.GetOr(c.rateLimit),
      p.thumbnailUrl.GetOr(c.thumbnailUrl), p.lastCaption.GetOr(c.lastCaption),
      p.lastCaptionTime.GetOr(c.lastCaptionTime))
  }

  /** Spreading `q` over `p`: `{ ...p, ...q }` on patches, the later one winning per field. */
  function ThenService(p: ServicePatch, q: ServicePatch): ServicePatch {
    ServicePatch(
      if q.id.Some? then q.id else p.id, if q.name.Some? then q.name else p.name,
      if q.kind.Some? then q.kind else p.kind, if q.status.Some? then q.status else p.status,
      if q.url.Some? then q.url else p.url,
      if q.containerId.Some? then q.containerId else p.containerId,
      if q.uptime.Some? then q.uptime else p.uptime,
      if q.lastChecked.Some? then q.lastChecked else p.lastChecked)
  }

  /**
    The merge laws: an empty patch changes nothing, two merges in a row equal
    one merge of the combined patch, and merging the same patch twice is the
    same as merging it once.
   */
  lemma ServiceMergeLaws(s: Service, p: ServicePatch, q: ServicePatch)
    ensures MergeService(s, NoServiceChange) == s
    ensures MergeService(MergeService(s, p), q) == MergeService(s, ThenService(p, q))
    ensures MergeService(MergeService(s, p), p) == MergeService(s, p)
  {
  }

  lemma CameraMergeLaws(c: Camera, p: CameraPatch)
    ensures MergeCamera(c, NoCameraChange) == c
    ensures MergeCamera(MergeCamera(c, p), p) == MergeCamera(c, p)
  {
  }

  // ---------------------------------------------------------------------------
  // Updates
  // ---------------------------------------------------------------------------

  /**
    The shared shape of every `updateX`: look the key up; when absent return
    not-found and leave the Map alone; otherwise store `f(old)` under the key
    and return it.
   */
  function UpdateEntry<V>(t: Table<V>, id: string, f: V -> V): (r: (Option<V>, Table<V>))
    ensures Get(t, id).None? ==> r.0.None? && r.1 == t
    ensures Get(t, id).Some? ==> r.0 == Some(f(Get(t, id).value))
    ensures Get(t, id).Some? ==> Get(r.1, id) == r.0 && Keys(r.1) == Keys(t)
    ensures forall k :: k != id ==> Get(r.1, k) == Get(t, k)
    ensures DistinctKeys(t) ==> DistinctKeys(r.1)
  {
    match Get(t, id)
    case None => (None, t)
    case Some(current) => var v := f(current); (Some(v), Put(t, id, v))
  }

  /**
    `updateService(id, updates)`: not-found and no change on an unknown id;
    otherwise the merged service replaces the old one under `id`. Timestamps
    change only if the patch carries them.
   */
  function UpdateService(s: Store, id: string, p: ServicePatch): (r: (Option<Service>, Store))
    ensures GetService(s, id).None? ==> r.0.None? && r.1 == s
    ensures GetService(s, id).Some? ==> r.0 == Some(MergeService(GetService(s, id).value, p))
    ensures GetService(r.1, id) == r.0 || r.0.None?
    ensures r.0.Some? && p.lastChecked.None? ==> r.0.value.lastChecked == GetService(s, id).value.lastChecked
    ensures forall k :: k != id ==> GetService(r.1, k) == GetService(s, k)
    ensures Keys(r.1.services) == Keys(s.services)
    ensures r.1 == s.(services := r.1.services)
    ensures Valid(s) ==> Valid(r.1)
  {
    var u := UpdateEntry(s.services, id, x => MergeService(x, p));
    (u.0, s.(services := u.1))
  }

  /**
    `updateGpu(id, updates)`: like `updateService`, except that `lastUpdated`
    is always set to the current time, overriding any value in the patch.
   */
  function UpdateGpu(s: Store, id: string, p: GpuPatch, now: Timestamp): (r: (Option<Gpu>, Store))
    ensures GetGpu(s, id).None? ==> r.0.None? && r.1 == s
    ensures GetGpu(s, id).Some? ==> r.0.Some? && r.0.value.lastUpdated == Some(now)
    ensures GetGpu(s, id).Some? ==> r.0.value == MergeGpu(GetGpu(s, id).value, p).(lastUpdated := Some(now))
    ensures GetGpu(r.1, id) == r.0 || r.0.None?
    ensures forall k :: k != id ==> GetGpu(r.1, k) == GetGpu(s, k)
    ensures Keys(r.1.gpus) == Keys(s.gpus)
    ensures r.1 == s.(gpus := r.1.gpus)
    ensures Valid(s) ==> Valid(r.1)
  {
    var u := UpdateEntry(s.gpus, id, x => MergeGpu(x, p).(lastUpdated := Some(now)));
    (u.0, s.(gpus := u.1))
  }

  /** `updateStorage(id, updates)`: as `updateGpu`, `lastUpdated` always becomes the current time. */
  function UpdateStorage(s: Store, id: string, p: StoragePatch, now: Timestamp): (r: (Option<Storage>, Store))
    ensures GetStorage(s, id).None? ==> r.0.None? && r.1 == s
    ensures GetStorage(s, id).Some? ==> r.0.Some? && r.0.value.lastUpdated == Some(now)
    ensures GetStorage(s, id).Some? ==> r.0.value == MergeStorage(GetStorage(s, id).value, p).(lastUpdated := Some(now))
    ensures GetStorage(r.1, id) == r.0 || r.0.None?
    ensures forall k :: k != id ==> GetStorage(r.1, k) == GetStorage(s, k)
    ensures Keys(r.1.storage) == Keys(s.storage)
    ensures r.1 == s.(storage := r.1.storage)
    ensures Valid(s) ==> Valid(r.1)
  {
    var u := UpdateEntry(s.storage, id, x => MergeStorage(x, p).(lastUpdated := Some(now)));
    (u.0, s.(storage := u.1))
  }

  /** `updateCamera(id, updates)`: a plain merge, no timestamp refresh. */
  function UpdateCamera(s: Store, id: string, p: CameraPatch): (r: (Option<Camera>, Store))
    ensures GetCamera(s, id).None? ==> r.0.None? && r.1 == s
    ensures GetCamera(s, id).Some? ==> r.0 == Some(MergeCamera(GetCamera(s, id).value, p))
    ensures GetCamera(r.1, id) == r.0 || r.0.None?
    ensures r.0.Some? && p.lastCaptionTime.None? ==> r.0.value.lastCaptionTime == GetCamera(s, id).value.lastCaptionTime
    ensures forall k :: k != id ==> GetCamera(r.1, k) == GetCamera(s, k)
    ensures Keys(r.1.cameras) == Keys(s.cameras)
    ensures r.1 == s.(cameras := r.1.cameras)
    ensures Valid(s) ==> Valid(r.1)
  {
    var u := UpdateEntry(s.cameras, id, x => MergeCamera(x, p));
    (u.0, s.(cameras := u.1))
  }

  /** `getService(id)` after a successful `updateService(id, p)` returns what the update returned. */
  lemma GetAfterUpdateService(s: Store, id: string, p: ServicePatch)
    requires UpdateService(s, id, p).0.Some?
    ensures GetService(UpdateService(s, id, p).1, id) == UpdateService(s, id, p).0
  {
  }

  /**
    The key a service is stored under stays its `id` through an update unless
    the patch itself carries a different `id`: the merge does not protect the
    identity field.
   */
  lemma UpdateKeepsServiceKeys(s: Store, id: string, p: ServicePatch)
    requires Valid(s) && ServicesKeyedById(s.services)
    requires p.id.None? || p.id == Some(id)
    ensures ServicesKeyedById(UpdateService(s, id, p).1.services)
  {
    var t := UpdateService(s, id, p).1.services;
    if GetService(s, id).Some? {
      var i :| 0 <= i < |s.services| && s.services[i].key == id;
      GetDistinct(s.services, id, i);
      assert Get(s.services, id) == Some(s.services[i].value);
      var merged := MergeService(s.services[i].value, p);
      assert merged.id == id;
      assert IndexOf(s.services, id) == Some(i) by {
        IndexOfFirst(s.services, id, i);
      }
      assert t == s.services[i := Entry(id, merged)];
      forall j | 0 <= j < |t|
        ensures t[j].value.id == t[j].key
      {
        if j != i {
          assert t[j] == s.services[j];
        }
      }
    }
  }

  // ---------------------------------------------------------------------------
  // Create
  // ---------------------------------------------------------------------------

  /** `createService(insert)`: the insert row plus `lastChecked = now`, stored under its own id. */
  function CreateService(s: Store, ins: InsertService, now: Timestamp): (r: (Service, Store))
    ensures ServiceInsertPart(r.0) == ins && r.0.lastChecked == Some(now)
    ensures GetService(r.1, ins.id) == Some(r.0)
    ensures forall k :: k != ins.id ==> GetService(r.1, k) == GetService(s, k)
    ensures r.1 == s.(services := r.1.services)
    ensures Valid(s) ==> Valid(r.1)
  {
    var svc := Service(ins.id, ins.name, ins.kind, ins.status, ins.url, ins.containerId, ins.uptime, Some(now));
    (svc, s.(services := Put(s.services, ins.id, svc)))
  }

  /**
    `createCaption(insert)`: a caption with the generated `id`, the insert
    row's fields and `timestamp = now`. A fresh id appends exactly one entry
    and leaves the existing ones as they were.
   */
  function CreateCaption(s: Store, ins: InsertCaption, id: string, now: Timestamp): (r: (Caption, Store))
    ensures r.0.id == id && r.0.timestamp == now && CaptionInsertPart(r.0) == ins
    ensures id !in Keys(s.captions) ==> r.1.captions == s.captions + [Entry(id, r.0)]
    ensures Get(r.1.captions, id) == Some(r.0)
    ensures forall k :: k != id ==> Get(r.1.captions, k) == Get(s.captions, k)
    ensures r.1 == s.(captions := r.1.captions)
    ensures Valid(s) ==> Valid(r.1)
  {
    var c := Caption(id, ins.cameraId, ins.cameraName, ins.caption, now, ins.snapshotUrl);
    (c, s.(captions := Put(s.captions, id, c)))
  }

  /**
    `createEvent(insert)`: an event with the generated `id`, the insert row's
    fields and `timestamp = now`. The log is never trimmed: a fresh id grows
    it by exactly one.
   */
  function CreateEvent(s: Store, ins: InsertEvent, id: string, now: Timestamp): (r: (Event, Store))
    ensures r.0.id == id && r.0.timestamp == now && EventInsertPart(r.0) == ins
    ensures id !in Keys(s.events) ==> r.1.events == s.events + [Entry(id, r.0)]
    ensures Get(r.1.events, id) == Some(r.0)
    ensures forall k :: k != id ==> Get(r.1.events, k) == Get(s.events, k)
    ensures r.1 == s.(events := r.1.events)
    ensures Valid(s) ==> Valid(r.1)
  {
    var e := Event(id, ins.kind, ins.severity, ins.title, ins.description, ins.metadata, now);
    (e, s.(events := Put(s.events, id, e)))
  }

  /**
    Past 50 events the stored log and the listed log part ways: a fresh event
    always lengthens the store, while the list stays at 50.
   */
  lemma EventLogIsCutOnReadOnly(s: Store, ins: InsertEvent, id: string, now: Timestamp)
    requires id !in Keys(s.events)
    requires |s.events| >= EventReadLimit
    ensures |CreateEvent(s, ins, id, now).1.events| == |s.events| + 1
    ensures |AllEvents(CreateEvent(s, ins, id, now).1)| == EventReadLimit
  {
  }
}
