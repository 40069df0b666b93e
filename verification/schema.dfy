/**
  Record shapes shared by the server and the client (shared/schema.ts): one
  datatype per table row, the insert shapes that leave out the generated
  columns, the loosely typed JSON values request bodies and the language
  model's reply are read from, and the AI command request/response contract.

  Column `type` is a Dafny keyword and is called `kind` here. Nullable
  columns are `Option`s; timestamps are milliseconds since the epoch.
 */
module Schema {
  import opened Wrappers

  /** A JavaScript `Date`, as milliseconds since the epoch. */
  type Timestamp = int

  // ---------------------------------------------------------------------------
  // Untyped JSON values and JavaScript truthiness
  // ---------------------------------------------------------------------------

  /**
    A value read from parsed JSON: a missing key reads as `Undefined`; arrays
    and objects are `Composite` (their contents are never inspected here).
   */
  datatype Json = Undefined | Null | Bool(b: bool) | Num(n: real) | Str(s: string) | Composite

  /** JavaScript truthiness: `undefined`, `null`, `false`, `0` and `""` are falsy. */
  predicate Truthy(v: Json) {
    match v
    case Undefined => false
    case Null => false
    case Bool(b) => b
    case Num(n) => n != 0.0
    case Str(s) => s != ""
    case Composite => true
  }

  /** `v || d`. */
  function Or(v: Json, d: Json): (r: Json)
    ensures Truthy(v) ==> r == v
    ensures !Truthy(v) ==> r == d
  {
    if Truthy(v) then v else d
  }

  // ---------------------------------------------------------------------------
  // Entities
  // ---------------------------------------------------------------------------

  datatype Service = Service(
    id: string, name: string, kind: string, status: string,
    url: Option<string>, containerId: Option<string>, uptime: Option<real>,
    lastChecked: Option<Timestamp>)

  /** A row of `insertServiceSchema`: a service without `lastChecked`. */
  datatype InsertService = InsertService(
    id: string, name: string, kind: string, status: string,
    url: Option<string>, containerId: Option<string>, uptime: Option<real>)

  datatype Gpu = Gpu(
    id: string, name: string, utilization: real, vramUsed: real, vramTotal: real,
    temperature: Option<int>, jobsQueued: Option<int>, lastUpdated: Option<Timestamp>)

  /** A row of `insertGpuSchema`: a GPU without `lastUpdated`. */
  datatype InsertGpu = InsertGpu(
    id: string, name: string, utilization: real, vramUsed: real, vramTotal: real,
    temperature: Option<int>, jobsQueued: Option<int>)

  datatype Storage = Storage(
    id: string, name: string, path: string, usedGB: real, totalGB: real,
    usagePercent: real, kind: string, lastUpdated: Option<Timestamp>)

  /** A row of `insertStorageSchema`: a volume without `lastUpdated`. */
  datatype InsertStorage = InsertStorage(
    id: string, name: string, path: string, usedGB: real, totalGB: real,
    usagePercent: real, kind: string)

  /**
    A camera. `captionEnabled` is a boolean column, but the camera PATCH
    route stores its unvalidated body as is, so the field holds whatever JSON
    value a request last sent.
   */
  datatype Camera = Camera(
    id: string, name: string, enabled: Option<bool>, captionEnabled: Json,
    rateLimit: Option<int>, thumbnailUrl: Option<string>, lastCaption: Option<string>,
    lastCaptionTime: Option<Timestamp>)

  datatype Caption = Caption(
    id: string, cameraId: string, cameraName: string, caption: string,
    timestamp: Timestamp, snapshotUrl: Option<string>)

  /** A row of `insertCaptionSchema`: a caption without `id` and `timestamp`. */
  datatype InsertCaption = InsertCaption(
    cameraId: string, cameraName: string, caption: string, snapshotUrl: Option<string>)

  datatype HomeAssistant = HomeAssistant(
    id: string, totalEntities: int, activeAutomations: int, totalAutomations: int,
    lastUpdated: Option<Timestamp>)

  datatype Model = Model(
    id: string, name: string, provider: string, placement: string,
    vramFootprint: Option<real>, typicalLatency: Option<int>, isPinned: Option<bool>)

  /** The `jsonb` metadata column, as an object of JSON values. */
  type Metadata = map<string, Json>

  datatype Event = Event(
    id: string, kind: string, severity: string, title: string,
    description: Option<string>, metadata: Option<Metadata>, timestamp: Timestamp)

  /** A row of `insertEventSchema`: an event without `id` and `timestamp`. */
  datatype InsertEvent = InsertEvent(
    kind: string, severity: string, title: string,
    description: Option<string>, metadata: Option<Metadata>)

  // ---------------------------------------------------------------------------
  // Insert shapes: the record minus its generated columns
  // ---------------------------------------------------------------------------

  function ServiceInsertPart(s: Service): InsertService {
    InsertService(s.id, s.name, s.kind, s.status, s.url, s.containerId, s.uptime)
  }

  function GpuInsertPart(g: Gpu): InsertGpu {
    InsertGpu(g.id, g.name, g.utilization, g.vramUsed, g.vramTotal, g.temperature, g.jobsQueued)
  }

  function StorageInsertPart(v: Storage): InsertStorage {
    InsertStorage(v.id, v.name, v.path, v.usedGB, v.totalGB, v.usagePercent, v.kind)
  }

  function CaptionInsertPart(c: Caption): InsertCaption {
    InsertCaption(c.cameraId, c.cameraName, c.caption, c.snapshotUrl)
  }

  function EventInsertPart(e: Event): InsertEvent {
    InsertEvent(e.kind, e.severity, e.title, e.description, e.metadata)
  }

  /** A GPU row built from an insert row and the clock reading the database default supplies. */
  function GpuFromInsert(ins: InsertGpu, now: Timestamp): (g: Gpu)
    ensures GpuInsertPart(g) == ins
    ensures g.lastUpdated == Some(now)
  {
    Gpu(ins.id, ins.name, ins.utilization, ins.vramUsed, ins.vramTotal, ins.temperature, ins.jobsQueued, Some(now))
  }

  /** A storage row built from an insert row and the clock reading the database default supplies. */
  function StorageFromInsert(ins: InsertStorage, now: Timestamp): (v: Storage)
    ensures StorageInsertPart(v) == ins
    ensures v.lastUpdated == Some(now)
  {
    Storage(ins.id, ins.name, ins.path, ins.usedGB, ins.totalGB, ins.usagePercent, ins.kind, Some(now))
  }

  /**
    The GPU and storage insert shapes are exactly the row minus `lastUpdated`:
    splitting a row and rebuilding it with its own timestamp gives it back.
   */
  lemma InsertShapesOmitOnlyTimestamps(g: Gpu, v: Storage)
    requires g.lastUpdated.Some? && v.lastUpdated.Some?
    ensures GpuFromInsert(GpuInsertPart(g), g.lastUpdated.value) == g
    ensures StorageFromInsert(StorageInsertPart(v), v.lastUpdated.value) == v
  {
  }

  // ---------------------------------------------------------------------------
  // AI command request and response
  // ---------------------------------------------------------------------------

  /** The request body as the handler sees it: anything but a JSON object fails the schema. */
  datatype CommandBody = NonObject | Object(command: Json)

  /**
    `aiCommandSchema.safeParse(body)`: succeeds with the command text exactly
    when `command` is a string of length at least 1. White space counts.
   */
  function ParseCommand(body: CommandBody): (r: Option<string>)
    ensures r.Some? <==> body.Object? && body.command.Str? && |body.command.s| >= 1
    ensures r.Some? ==> body.command == Str(r.value)
  {
    if body.Object? && body.command.Str? && |body.command.s| >= 1 then Some(body.command.s) else None
  }

  datatype Intent = OpenService | ViewLogs | RestartService | QueryStatus | Unknown

  function IntentName(i: Intent): string {
    match i
    case OpenService => "open_service"
    case ViewLogs => "view_logs"
    case RestartService => "restart_service"
    case QueryStatus => "query_status"
    case Unknown => "unknown"
  }

  /** The `intent` enum of `aiCommandResponseSchema`. */
  function ParseIntent(s: string): (r: Option<Intent>)
    ensures r.Some? ==> IntentName(r.value) == s
  {
    if s == "open_service" then Some(OpenService)
    else if s == "view_logs" then Some(ViewLogs)
    else if s == "restart_service" then Some(RestartService)
    else if s == "query_status" then Some(QueryStatus)
    else if s == "unknown" then Some(Unknown)
    else None
  }

  /** Every intent's name parses back to that intent, so the enum has exactly five members. */
  lemma IntentNameRoundTrip(i: Intent)
    ensures ParseIntent(IntentName(i)) == Some(i)
  {
  }

  /**
    The response body. Fields are JSON values because the delegated path
    passes whatever the language model returned through `||` defaults
    without checking it against the schema. `Undefined` fields are left out
    when the body is serialised.
   */
  datatype CommandResponse = CommandResponse(
    intent: Json, confidence: Json, serviceId: Json, message: Json, requiresConfirmation: Json)

  /**
    `aiCommandResponseSchema`: the intent is one of the five names, the
    confidence any number (no range check), `serviceId` an optional string,
    the message a string and `requiresConfirmation` a boolean.
   */
  predicate ConformsToResponseSchema(r: CommandResponse) {
    && r.intent.Str? && ParseIntent(r.intent.s).Some?
    && r.confidence.Num?
    && (r.serviceId.Undefined? || r.serviceId.Str?)
    && r.message.Str?
    && r.requiresConfirmation.Bool?
  }

  /** A well-typed response built from its parts, with `serviceId` omitted when absent. */
  function Response(intent: Intent, confidence: real, serviceId: Option<string>, message: string, confirm: bool): (r: CommandResponse)
    ensures ConformsToResponseSchema(r)
    ensures ParseIntent(r.intent.s) == Some(intent)
  {
    IntentNameRoundTrip(intent);
    CommandResponse(
      Str(IntentName(intent)), Num(confidence),
      if serviceId.Some? then Str(serviceId.value) else Undefined,
      Str(message), Bool(confirm))
  }
}
