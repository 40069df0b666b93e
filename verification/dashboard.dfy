/**
  The dashboard page (client/src/pages/dashboard.tsx): the loading gate, the
  four overview counters, and what happens after an AI command reply, with
  the end-to-end facts that tie the page to the server it talks to.
 */
module Dashboard {
  import opened Wrappers
  import opened Schema
  import opened Table
  import Seqs
  import NumberFormat
  import MemStorage
  import Monitors
  import CommandRouter
  import Handlers

  // ---------------------------------------------------------------------------
  // Loading gate
  // ---------------------------------------------------------------------------

  /** The `isLoading` flag of each of the page's eight queries. */
  datatype QueryFlags = QueryFlags(
    services: bool, gpus: bool, storage: bool, cameras: bool,
    captions: bool, homeAssistant: bool, models: bool, events: bool)

  /** The skeleton replaces the page while any of the first four queries loads. */
  predicate ShowsSkeleton(q: QueryFlags) {
    q.services || q.gpus || q.storage || q.cameras
  }

  /** The captions, Home Assistant, model and event queries never hold the page back. */
  lemma OnlyFourQueriesGate(q: QueryFlags, captions: bool, homeAssistant: bool, models: bool, events: bool)
    ensures ShowsSkeleton(q) == ShowsSkeleton(q.(captions := captions, homeAssistant := homeAssistant, models := models, events := events))
    ensures !ShowsSkeleton(q) <==> !q.services && !q.gpus && !q.storage && !q.cameras
  {
  }

  // ---------------------------------------------------------------------------
  // Overview counters
  // ---------------------------------------------------------------------------

  predicate IsOperational(s: Service) { s.status == "operational" }

  /** "Services Online": how many services report `operational`. */
  function OperationalServices(services: seq<Service>): (n: nat)
    ensures n == |Seqs.IndicesWhere(services, IsOperational)|
    ensures n == |services| <==> forall i :: 0 <= i < |services| ==> IsOperational(services[i])
    ensures n == 0 <==> forall i :: 0 <= i < |services| ==> !IsOperational(services[i])
  {
    Seqs.Count(services, IsOperational)
  }

  /**
    "Storage Alerts": the volumes at or above 85%. It counts exactly the
    volumes the storage panel marks with an alert icon and an offload button.
   */
  function StorageAlerts(storage: seq<Storage>): (n: nat)
    ensures n == |Seqs.IndicesWhere(storage, Monitors.DriveIsWarning)|
    ensures n == |Monitors.DrivesWithButton(storage, true)|
    ensures n == 0 <==> forall i :: 0 <= i < |storage| ==> Monitors.AlertIcon(storage[i].usagePercent).None?
  {
    Seqs.Count(storage, Monitors.DriveIsWarning)
  }

  /** The subtitle under the alert count: it reports trouble exactly when some volume shows an alert icon. */
  function StorageAlertsSubtitle(storage: seq<Storage>): (r: string)
    ensures r == "volumes at capacity" <==>
      exists i :: 0 <= i < |storage| && Monitors.AlertIcon(storage[i].usagePercent).Some?
    ensures r == "all volumes healthy" <==>
      forall i :: 0 <= i < |storage| ==> Monitors.AlertIcon(storage[i].usagePercent).None?
  {
    if StorageAlerts(storage) > 0 then "volumes at capacity" else "all volumes healthy"
  }

  /** `captionEnabled` is truthy. */
  predicate CaptionsOn(c: Camera) { Truthy(c.captionEnabled) }

  /** "Active Cameras": cameras whose `captionEnabled` is truthy. */
  function ActiveCameras(cameras: seq<Camera>): (n: nat)
    ensures n == |Seqs.IndicesWhere(cameras, CaptionsOn)|
    ensures n <= |cameras|
    ensures n == 0 <==> forall i :: 0 <= i < |cameras| ==> !Truthy(cameras[i].captionEnabled)
  {
    Seqs.Count(cameras, CaptionsOn)
  }

  /** `gpus.reduce((acc, gpu) => acc + gpu.utilization, 0)`. */
  function SumUtilization(gpus: seq<Gpu>): real {
    if |gpus| == 0 then 0.0 else SumUtilization(gpus[..|gpus| - 1]) + gpus[|gpus| - 1].utilization
  }

  predicate FractionsOnly(gpus: seq<Gpu>) {
    forall i :: 0 <= i < |gpus| ==> 0.0 <= gpus[i].utilization <= 1.0
  }

  lemma {:induction false} SumUtilizationBounds(gpus: seq<Gpu>)
    requires FractionsOnly(gpus)
    ensures 0.0 <= SumUtilization(gpus) <= |gpus| as real
  {
    if |gpus| > 0 {
      SumUtilizationBounds(gpus[..|gpus| - 1]);
    }
  }

  lemma QuotientIsFraction(sum: real, n: real)
    requires n > 0.0 && 0.0 <= sum <= n
    ensures 0.0 <= sum / n <= 1.0
  {
    var q := sum / n;
    assert q * n == sum;
    assert (1.0 - q) * n == n - sum;
  }

  /**
    "Avg GPU Utilization": the mean utilisation, 0 with no GPUs. With every
    utilisation a fraction, so is the mean.
   */
  function AvgGpuUtil(gpus: seq<Gpu>): (a: real)
    ensures |gpus| == 0 ==> a == 0.0
    ensures |gpus| > 0 ==> a * (|gpus| as real) == SumUtilization(gpus)
    ensures FractionsOnly(gpus) ==> 0.0 <= a <= 1.0
  {
    if |gpus| > 0 then
      var a := SumUtilization(gpus) / (|gpus| as real);
      if FractionsOnly(gpus) then
        SumUtilizationBounds(gpus);
        QuotientIsFraction(SumUtilization(gpus), |gpus| as real);
        a
      else a
    else 0.0
  }

  /** The card's text, `${(avgGpuUtil * 100).toFixed(1)}%`: within half a tenth of the mean percentage. */
  function AvgGpuUtilLabel(gpus: seq<Gpu>): (r: string)
    ensures |r| >= 4 && r[|r| - 1] == '%'
    ensures FractionsOnly(gpus) ==>
      var digits := r[..|r| - 1];
      && |digits| >= 3 && digits[|digits| - 2] == '.'
      && NumberFormat.AllDigits(digits[..|digits| - 2]) && NumberFormat.IsDigit(digits[|digits| - 1])
      && AvgGpuUtil(gpus) * 100.0 - 0.05 < NumberFormat.ParseTenths(digits) as real / 10.0 <= AvgGpuUtil(gpus) * 100.0 + 0.05
  {
    var p := AvgGpuUtil(gpus) * 100.0;
    var r := NumberFormat.Fixed1(p) + "%";
    assert r[..|r| - 1] == NumberFormat.Fixed1(p);
    if FractionsOnly(gpus) then
      NumberFormat.Fixed1IsAccurate(p);
      r
    else r
  }

  // ---------------------------------------------------------------------------
  // After an AI command reply
  // ---------------------------------------------------------------------------

  function ServiceId(s: Service): string { s.id }

  /** `services.find((s) => s.id === serviceId)`. */
  function FindById(services: seq<Service>, id: string): (r: Option<nat>)
    ensures r.Some? ==> r.value < |services| && services[r.value].id == id
    ensures r.Some? ==> forall j :: 0 <= j < r.value ==> services[j].id != id
    ensures r.None? ==> forall j :: 0 <= j < |services| ==> services[j].id != id
  {
    if |services| == 0 then None
    else if services[0].id == id then Some(0)
    else match FindById(services[1..], id)
      case None => None
      case Some(i) => Some(i + 1)
  }

  /**
    The URL opened in a new tab after a reply: only for `open_service` with
    a truthy service id naming a service of the page's list that has a URL.
   */
  function UrlToOpen(resp: CommandResponse, services: seq<Service>): (r: Option<string>)
    ensures r.Some? ==>
      && resp.intent == Str("open_service") && resp.serviceId.Str? && resp.serviceId.s != ""
      && exists i :: 0 <= i < |services| && services[i].id == resp.serviceId.s
           && CommandRouter.HasUrl(services[i]) && services[i].url == r
    ensures resp.intent == Str("open_service") && resp.serviceId.Str? && resp.serviceId.s != "" ==>
      forall i :: 0 <= i < |services| && services[i].id == resp.serviceId.s && Seqs.DistinctBy(services, ServiceId) ==>
        r == (if CommandRouter.HasUrl(services[i]) then services[i].url else None)
  {
    if resp.intent == Str("open_service") && Truthy(resp.serviceId) && resp.serviceId.Str? then
      match FindById(services, resp.serviceId.s)
      case None => None
      case Some(i) =>
        assert forall j :: 0 <= j < |services| && services[j].id == resp.serviceId.s && Seqs.DistinctBy(services, ServiceId) ==> j == i by {
          forall j | 0 <= j < |services| && services[j].id == resp.serviceId.s && Seqs.DistinctBy(services, ServiceId)
            ensures j == i
          {
            assert ServiceId(services[j]) == ServiceId(services[i]);
          }
        }
        if CommandRouter.HasUrl(services[i]) then services[i].url else None
    else None
  }

  /** The page once a reply has arrived and the one-second timer, if started, has fired. */
  datatype AfterReply = AfterReply(barOpen: bool, result: Option<CommandResponse>, url: Option<string>)

  /**
    Opening a URL also closes the dialog and clears the reply; otherwise the
    dialog stays open showing the reply.
   */
  function OnReply(resp: CommandResponse, services: seq<Service>): (v: AfterReply)
    ensures v.url == UrlToOpen(resp, services)
    ensures v.url.Some? <==> !v.barOpen
    ensures v.barOpen <==> v.result == Some(resp)
    ensures !v.barOpen ==> v.result.None?
  {
    var url := UrlToOpen(resp, services);
    if url.Some? then AfterReply(false, None, url) else AfterReply(true, Some(resp), None)
  }

  // ---------------------------------------------------------------------------
  // Page and server together
  // ---------------------------------------------------------------------------

  /** The service list the page holds has no two services with one id. */
  lemma ListedServicesHaveDistinctIds(s: MemStorage.Store)
    requires MemStorage.Valid(s) && MemStorage.ServicesKeyedById(s.services)
    ensures Seqs.DistinctBy(MemStorage.AllServices(s), ServiceId)
  {
    var vs := Values(s.services);
    assert Seqs.DistinctBy(vs, ServiceId) by {
      forall i, j | 0 <= i < j < |vs|
        ensures ServiceId(vs[i]) != ServiceId(vs[j])
      {
        assert vs[i].id == s.services[i].key && vs[j].id == s.services[j].key;
      }
    }
    Seqs.DistinctByPermutation(vs, MemStorage.AllServices(s), ServiceId);
  }

  /**
    Without model credentials, "open <name>" opens exactly the URL of the
    service the fallback picked, when it has one and a non-empty id, and
    opens nothing otherwise.
   */
  lemma FallbackOpensChosenServiceUrl(s: MemStorage.Store, command: string)
    requires MemStorage.Valid(s) && MemStorage.ServicesKeyedById(s.services)
    ensures var list := MemStorage.AllServices(s);
      var t := CommandRouter.FallbackTarget(command, list);
      UrlToOpen(CommandRouter.Fallback(command, list), list) ==
        (if t.Some? && list[t.value].id != "" && CommandRouter.HasUrl(list[t.value]) then list[t.value].url else None)
  {
    ListedServicesHaveDistinctIds(s);
  }

  /** A volume's offload button, pressed on the page, always reaches a volume the server finds. */
  lemma OffloadButtonFindsVolume(s: MemStorage.Store, d: Storage, eventId: string, updatedAt: Timestamp, loggedAt: Timestamp)
    requires MemStorage.StorageKeyedById(s.storage)
    requires d in MemStorage.AllStorage(s) && d.id != ""
    requires Monitors.OffloadButton(d, true).Some?
    ensures Handlers.Offload(s, Str(Monitors.OffloadButton(d, true).value), eventId, updatedAt, loggedAt).0 == Handlers.Offloaded(Handlers.FreedGB)
  {
    ListedVolumeIsFound(s, d);
    assert Monitors.OffloadButton(d, true).value == d.id;
    assert Handlers.OffloadTarget(s, Str(d.id)).Some?;
  }

  /** A volume listed from a store keyed by id is found under its own id. */
  lemma ListedVolumeIsFound(s: MemStorage.Store, d: Storage)
    requires MemStorage.StorageKeyedById(s.storage)
    requires d in MemStorage.AllStorage(s)
    ensures d.id in Keys(s.storage)
  {
    assert d in multiset(MemStorage.AllStorage(s));
    var vs := Values(s.storage);
    assert d in multiset(vs);
    var k :| 0 <= k < |vs| && vs[k] == d;
    assert Keys(s.storage)[k] == d.id;
  }

  /** The caption switch on a camera card always adds one event to the log. */
  lemma CaptionSwitchIsLogged(s: MemStorage.Store, id: string, enabled: bool, eventId: string, now: Timestamp)
    requires MemStorage.GetCamera(s, id).Some? && eventId !in Keys(s.events)
    ensures var p := MemStorage.NoCameraChange.(captionEnabled := Bool(enabled));
      |Handlers.PatchCamera(s, id, p, eventId, now).1.events| == |s.events| + 1
  {
  }

  /**
    The camera body is not validated, so the switch's state is read by
    truthiness: the string "false" logs "enabled" and counts the camera as
    active.
   */
  lemma FalseStringEnablesCaptions(s: MemStorage.Store, id: string, eventId: string, now: Timestamp)
    requires MemStorage.GetCamera(s, id).Some? && eventId !in Keys(s.events)
    ensures var p := MemStorage.NoCameraChange.(captionEnabled := Str("false"));
      var r := Handlers.PatchCamera(s, id, p, eventId, now);
      && r.0.Patched? && CaptionsOn(r.0.camera)
      && r.1.events[|r.1.events| - 1].value.title == "Caption enabled for " + MemStorage.GetCamera(s, id).value.name
  {
    var p := MemStorage.NoCameraChange.(captionEnabled := Str("false"));
    assert Truthy(p.captionEnabled);
    var e := Handlers.CaptionToggleEvent(MemStorage.GetCamera(s, id).value.name, p.captionEnabled, id);
    assert e.title == "Caption enabled for " + MemStorage.GetCamera(s, id).value.name;
  }

  /** The number 0, by the same reading, logs "disabled" and counts the camera as inactive. */
  lemma ZeroDisablesCaptions(s: MemStorage.Store, id: string, eventId: string, now: Timestamp)
    requires MemStorage.GetCamera(s, id).Some? && eventId !in Keys(s.events)
    ensures var p := MemStorage.NoCameraChange.(captionEnabled := Num(0.0));
      var r := Handlers.PatchCamera(s, id, p, eventId, now);
      && r.0.Patched? && !CaptionsOn(r.0.camera)
      && r.1.events[|r.1.events| - 1].value.title == "Caption disabled for " + MemStorage.GetCamera(s, id).value.name
  {
    var p := MemStorage.NoCameraChange.(captionEnabled := Num(0.0));
    assert !Truthy(p.captionEnabled);
    var e := Handlers.CaptionToggleEvent(MemStorage.GetCamera(s, id).value.name, p.captionEnabled, id);
    assert e.title == "Caption disabled for " + MemStorage.GetCamera(s, id).value.name;
  }
}
