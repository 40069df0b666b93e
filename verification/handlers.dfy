/**
  The two write handlers of server/routes.ts that do more than forward to the
  repository: the MinIO offload and the camera PATCH with its audit event.
  Fresh event ids and the clock are parameters.
 */
module Handlers {
  import opened Wrappers
  import opened Schema
  import opened Table
  import opened MemStorage
  import NumberFormat

  // ---------------------------------------------------------------------------
  // POST /api/storage/offload
  // ---------------------------------------------------------------------------

  /** Every offload claims to free this many gigabytes. */
  const FreedGB: real := 200.0

  /** `Math.max(0, usedGB - freedGB)`. */
  function UsedAfterOffload(used: real): (r: real)
    ensures r >= 0.0
    ensures r <= used || used < 0.0
    ensures used >= 0.0 ==> used - r == (if used < FreedGB then used else FreedGB)
  {
    if used - FreedGB > 0.0 then used - FreedGB else 0.0
  }

  /**
    `(newUsedGB / totalGB) * 100`. A zero capacity makes the source divide by
    zero; here it gives 0.
   */
  function PercentOf(used: real, total: real): (r: real)
    ensures total > 0.0 && used >= 0.0 ==> r >= 0.0
    ensures total > 0.0 && used <= total ==> r <= 100.0
    ensures total != 0.0 ==> r * total == used * 100.0
  {
    if total == 0.0 then 0.0 else used / total * 100.0
  }

  /** The repository patch the handler applies: new used space and usage. */
  function OffloadPatch(v: Storage): (p: StoragePatch)
    ensures p.usedGB == Some(UsedAfterOffload(v.usedGB))
    ensures p.usagePercent == Some(PercentOf(UsedAfterOffload(v.usedGB), v.totalGB))
    ensures p.id.None? && p.name.None? && p.path.None? && p.totalGB.None? && p.kind.None?
  {
    var used := UsedAfterOffload(v.usedGB);
    StoragePatch(None, None, None, Some(used), None, Some(PercentOf(used, v.totalGB)), None, None)
  }

  /** The text before the new usage in the offload event's description. */
  const FreedPrefix := "Freed 200 GB - usage now at "

  /**
    The audit event recorded after an offload of volume `v`, requested under
    `storageId`. The description carries the new usage with one decimal; for
    a volume with capacity it reads back within 0.05 of the stored usage.
   */
  function OffloadEvent(v: Storage, storageId: Json): (e: InsertEvent)
    ensures e.kind == "storage" && e.severity == "info"
    ensures e.title == "MinIO offload completed for " + v.name
    ensures e.metadata == Some(map["storageId" := storageId, "freedGB" := Num(FreedGB)])
    ensures var percent := PercentOf(UsedAfterOffload(v.usedGB), v.totalGB);
      e.description == Some(FreedPrefix + NumberFormat.Fixed1(percent) + "%")
    ensures var percent := PercentOf(UsedAfterOffload(v.usedGB), v.totalGB);
      var d := NumberFormat.Fixed1(percent);
      v.totalGB > 0.0 ==>
        && NumberFormat.AllDigits(d[..|d| - 2]) && NumberFormat.IsDigit(d[|d| - 1])
        && percent - 0.05 < NumberFormat.ParseTenths(d) as real / 10.0 <= percent + 0.05
  {
    var percent := PercentOf(UsedAfterOffload(v.usedGB), v.totalGB);
    var e := InsertEvent(
      "storage", "info", "MinIO offload completed for " + v.name,
      Some(FreedPrefix + NumberFormat.Fixed1(percent) + "%"),
      Some(map["storageId" := storageId, "freedGB" := Num(FreedGB)]));
    if v.totalGB > 0.0 then
      NumberFormat.Fixed1IsAccurate(percent);
      e
    else e
  }

  datatype OffloadReply =
    | StorageIdRequired            // 400
    | StorageNotFound              // 404
    | Offloaded(freedGB: real)     // 200, `{ success: true, message: "Offload completed", freedGB }`

  /** `getStorage(storageId)`: a key that is not a string is never found. */
  function OffloadTarget(s: Store, storageId: Json): (r: Option<Storage>)
    ensures r.Some? <==> storageId.Str? && storageId.s in Keys(s.storage)
    ensures r.Some? ==> Entry(storageId.s, r.value) in s.storage
  {
    if storageId.Str? then GetStorage(s, storageId.s) else None
  }

  /**
    The handler: a falsy id is rejected and an unknown one not found, both
    leaving the store as it was. Otherwise the volume's used space drops by
    200 GB (not below zero), its usage and timestamp are refreshed, no other
    volume changes, and exactly one event is appended to the log. The clock
    is read twice, once by each repository call: `updatedAt` stamps the
    volume and `loggedAt` the event, and nothing ties the two together.
   */
  function Offload(s: Store, storageId: Json, eventId: string, updatedAt: Timestamp, loggedAt: Timestamp): (r: (OffloadReply, Store))
    ensures !Truthy(storageId) ==> r == (StorageIdRequired, s)
    ensures Truthy(storageId) && OffloadTarget(s, storageId).None? ==> r == (StorageNotFound, s)
    ensures Truthy(storageId) && OffloadTarget(s, storageId).Some? ==>
      var v := OffloadTarget(s, storageId).value;
      var id := storageId.s;
      && r.0 == Offloaded(FreedGB)
      && GetStorage(r.1, id) == Some(v.(
           usedGB := UsedAfterOffload(v.usedGB),
           usagePercent := PercentOf(UsedAfterOffload(v.usedGB), v.totalGB),
           lastUpdated := Some(updatedAt)))
      && (forall k :: k != id ==> GetStorage(r.1, k) == GetStorage(s, k))
      && Keys(r.1.storage) == Keys(s.storage)
      && (eventId !in Keys(s.events) ==>
            r.1.events == s.events + [Entry(eventId, Event(eventId, "storage", "info",
              "MinIO offload completed for " + v.name, OffloadEvent(v, storageId).description,
              OffloadEvent(v, storageId).metadata, loggedAt))])
    ensures r.1.services == s.services && r.1.gpus == s.gpus && r.1.cameras == s.cameras
    ensures r.1.captions == s.captions && r.1.models == s.models
    ensures Valid(s) ==> Valid(r.1)
  {
    if !Truthy(storageId) then (StorageIdRequired, s)
    else match OffloadTarget(s, storageId)
      case None => (StorageNotFound, s)
      case Some(v) =>
        var updated := UpdateStorage(s, storageId.s, OffloadPatch(v), updatedAt).1;
        var logged := CreateEvent(updated, OffloadEvent(v, storageId), eventId, loggedAt).1;
        assert GetStorage(logged, storageId.s) == GetStorage(updated, storageId.s);
        assert forall k :: GetStorage(logged, k) == GetStorage(updated, k);
        assert Keys(logged.storage) == Keys(s.storage);
        (Offloaded(FreedGB), logged)
  }

  /**
    The volume's new `lastUpdated` and the audit event's `timestamp` come from
    separate clock reads: they agree only when the two reads do.
   */
  lemma OffloadStampsAreSeparate(s: Store, id: string, eventId: string, updatedAt: Timestamp, loggedAt: Timestamp)
    requires id != "" && GetStorage(s, id).Some? && eventId !in Keys(s.events)
    ensures var after := Offload(s, Str(id), eventId, updatedAt, loggedAt).1;
      && GetStorage(after, id).value.lastUpdated == Some(updatedAt)
      && after.events[|after.events| - 1].value.timestamp == loggedAt
      && var stamp := after.events[|after.events| - 1].value.timestamp;
         (GetStorage(after, id).value.lastUpdated == Some(stamp) <==> updatedAt == loggedAt)
  {
    assert Truthy(Str(id));
    assert OffloadTarget(s, Str(id)).Some?;
  }

  /** Applying the used-space rule `k` times. */
  function OffloadTimes(used: real, k: nat): real
    decreases k
  {
    if k == 0 then used else OffloadTimes(UsedAfterOffload(used), k - 1)
  }

  /** Repeated offloads free 200 GB each until the volume reads empty, and then stay at zero. */
  lemma {:induction false} RepeatedOffloads(used: real, k: nat)
    requires used >= 0.0
    decreases k
    ensures OffloadTimes(used, k) == (if used - (k as real) * FreedGB > 0.0 then used - (k as real) * FreedGB else 0.0)
  {
    if k > 0 {
      RepeatedOffloads(UsedAfterOffload(used), k - 1);
    }
  }

  // ---------------------------------------------------------------------------
  // PATCH /api/cameras/:id
  // ---------------------------------------------------------------------------

  /**
    The audit event for a caption toggle. `enabled` is the body's
    `captionEnabled`, read by JavaScript truthiness (so `null`, `0` and `""`
    read as disabled and the string "false" as enabled), and `cameraName` the
    name the camera had before the patch.
   */
  function CaptionToggleEvent(cameraName: string, enabled: Json, cameraId: string): (e: InsertEvent)
    ensures e.kind == "vision" && e.severity == "info"
    ensures e.description == Some("Vision Caption API toggled for camera")
    ensures e.metadata == Some(map["cameraId" := Str(cameraId)])
    ensures Truthy(enabled) ==> e.title == "Caption enabled for " + cameraName
    ensures !Truthy(enabled) ==> e.title == "Caption disabled for " + cameraName
  {
    InsertEvent(
      "vision", "info",
      (if Truthy(enabled) then "Caption enabled for " else "Caption disabled for ") + cameraName,
      Some("Vision Caption API toggled for camera"),
      Some(map["cameraId" := Str(cameraId)]))
  }

  datatype PatchReply =
    | CameraNotFound          // 404
    | Patched(camera: Camera) // 200, the merged camera

  /**
    The handler: an unknown camera is not found and nothing changes. Otherwise
    the camera is merged with the body and, exactly when the body carries
    `captionEnabled` (with any value, `null` included), one `vision` event is
    appended.
   */
  function PatchCamera(s: Store, id: string, p: CameraPatch, eventId: string, now: Timestamp): (r: (PatchReply, Store))
    ensures GetCamera(s, id).None? ==> r == (CameraNotFound, s)
    ensures GetCamera(s, id).Some? ==>
      && r.0 == Patched(MergeCamera(GetCamera(s, id).value, p))
      && GetCamera(r.1, id) == Some(r.0.camera)
      && (forall k :: k != id ==> GetCamera(r.1, k) == GetCamera(s, k))
    ensures p.captionEnabled.Undefined? ==> r.1.events == s.events
    ensures GetCamera(s, id).Some? && !p.captionEnabled.Undefined? && eventId !in Keys(s.events) ==>
      var e := CaptionToggleEvent(GetCamera(s, id).value.name, p.captionEnabled, id);
      r.1.events == s.events + [Entry(eventId, Event(eventId, e.kind, e.severity, e.title, e.description, e.metadata, now))]
    ensures r.1.services == s.services && r.1.gpus == s.gpus && r.1.storage == s.storage
    ensures r.1.captions == s.captions && r.1.models == s.models
    ensures Valid(s) ==> Valid(r.1)
  {
    match GetCamera(s, id)
    case None => (CameraNotFound, s)
    case Some(before) =>
      var u := UpdateCamera(s, id, p);
      var updated := u.1;
      if !p.captionEnabled.Undefined? then
        var logged := CreateEvent(updated, CaptionToggleEvent(before.name, p.captionEnabled, id), eventId, now).1;
        (Patched(u.0.value), logged)
      else (Patched(u.0.value), updated)
  }

  /**
    A patch that renames the camera and toggles captions in one request logs
    the name from before the rename.
   */
  lemma ToggleEventNamesCameraBeforeRename(s: Store, id: string, newName: string, eventId: string, now: Timestamp)
    requires GetCamera(s, id).Some? && eventId !in Keys(s.events)
    ensures var p := NoCameraChange.(name := Some(newName), captionEnabled := Bool(true));
      var after := PatchCamera(s, id, p, eventId, now).1;
      && GetCamera(after, id).value.name == newName
      && after.events[|after.events| - 1].value.title == "Caption enabled for " + GetCamera(s, id).value.name
  {
  }
}
