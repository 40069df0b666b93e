# Unified Dash core, modelled in Dafny

Unified Dash is a single-page dashboard for a home AI infrastructure stack. It
covers services, GPUs, storage volumes, cameras and their captions, a model
registry and an event log. An Express server keeps all of this in an in-memory
repository and pushes GPU and storage metrics over a websocket. It also answers
natural-language commands, either through a language model or, without
credentials, through a small regular-expression heuristic. A React client
shows the data and derives counters, colours and filters from it.

This project models the deterministic core of that system as immutable Dafny
datatypes and pure functions, and proves properties about them.

| File | Module | What it models |
|---|---|---|
| `wrappers.dfy` | `Wrappers` | `Option`. |
| `text.dfy` | `Text` | ASCII lower-casing, JavaScript `\s` and `\w`, `includes`, `trim`, and a lexicographic string order. |
| `seqs.dfy` | `Seqs` | `filter` and count over sequences; distinctness under permutation. |
| `sorting.dfy` | `Sorting` | A stable insertion sort by a total preorder (`Array.prototype.sort`). |
| `table.dfy` | `Table` | A JavaScript `Map<string, V>` as an insertion-ordered list of entries: `get`, `set`, `keys`, `values`. |
| `schema.dfy` | `Schema` | The record and insert shapes, untyped JSON values with JavaScript truthiness and `\|\|`, `aiCommandSchema`, and the response schema with its intent enum. |
| `storage.dfy` | `MemStorage` | The in-memory repository: sorted list operations, get by id, shallow-merge updates, and create. |
| `router.dfy` | `CommandRouter` | `POST /api/ai/command`: the input gate, the `open\s+(\w+)` fallback, the `\|\|` defaults and `open_service` resolution of a model reply, and the error payload. |
| `handlers.dfy` | `Handlers` | `POST /api/storage/offload` and `PATCH /api/cameras/:id` with their audit events. |
| `live.dfy` | `LiveMetrics` | The server's metrics payload; the client's cache reconciliation and `isConnected` flag. |
| `numfmt.dfy` | `NumberFormat` | `toFixed(0)` and `toFixed(1)`, with a parse-back accuracy lemma. |
| `monitors.dfy` | `Monitors` | Storage and GPU panel rules: thresholds, colours, offload button, free VRAM, queued badge, temperature. |
| `captions.dfy` | `CaptionTimeline` | The caption search filter and its empty-state text. |
| `command_bar.dfy` | `CommandBar` | The command dialog: submit guard, clearing, intent and confidence labels. |
| `dashboard.dfy` | `Dashboard` | The loading gate, the overview counters, the open-URL decision, and facts that join the page to the server. |
| `command_examples.dfy` | `CommandExamples` | The fallback heuristic on two seeded services. |
| `offload_example.dfy` | `OffloadExample` | An offload of the seeded models drive. |

## How the model represents the system

- **The repository** is a `Store` value. Every write operation returns its
  result together with the store after the call.
- **Maps** are association lists that keep insertion order, as JavaScript
  Maps do. `getAll*` sorts `values()`.
- **The clock and generated ids.** `new Date()` and `randomUUID()` become
  `now` and `id` parameters. Timestamps are integer milliseconds.
- **Untyped JSON.** The values the handlers read without validation are `Json`
  values: the command body, the offload body's `storageId`, the camera body's
  `captionEnabled` (and so a stored camera's flag), and the language model's
  reply. `Truthy` and `Or` give JavaScript's truthiness and `||` exactly:
  - `0` and `""` are falsy, while the string `"false"` is truthy;
  - a missing key reads as `Undefined`.
- **Typed patches.** The other fields of a patch are typed optional values.
- **Column names.** The column `type` is called `kind`, because `type` is a
  Dafny keyword.
- **The language model call** is not modelled. The handler receives what it
  returned as a `Completion`:
  - `Threw` covers a failed call, bad JSON, or `null`;
  - otherwise it is the parsed reply.

Behaviour a reader may not expect, modelled as the code has it:

- **Events are cut on read only.** `getAllEvents` returns the newest 50, but the
  stored log is never trimmed (`MemStorage.EventLogIsCutOnReadOnly`).
- **The fallback keeps `open_service` without a URL.** When the matched service
  has no URL, the fallback still answers `open_service`, only the message changes
  (`CommandExamples.OpenCaddy`). The delegated path downgrades the same case to
  `unknown`.
- **The model's reply is not validated.** It is passed through after the `||`
  defaults without checking it against the response schema, so an intent
  outside the enum reaches the client
  (`CommandRouter.DelegatedIntentIsNotValidated`).
- **An `open_service` reply with a falsy `serviceId` is not resolved.** It is
  returned as-is.
- **The camera body is not validated.** `captionEnabled` is stored as sent and
  read by truthiness, so `"false"` logs "Caption enabled" and counts the camera
  as active (`Dashboard.FalseStringEnablesCaptions`), while `0` logs "Caption
  disabled" (`Dashboard.ZeroDisablesCaptions`).
- **A patch can change an entity's `id`.** It then no longer matches the key the
  entity is stored under (`MemStorage.UpdateKeepsServiceKeys` needs the patch to
  keep it).

## Model

| member | source | states |
|---|---|---|
| MemStorage.AllServices | server/storage.ts:413-415 | The list holds exactly the stored services (same multiset) in non-decreasing name order. |
| MemStorage.AllGpus | server/storage.ts:439-441 | The list holds exactly the stored GPUs in non-decreasing name order. |
| MemStorage.AllStorage | server/storage.ts:456-458 | The list holds exactly the stored volumes in non-decreasing name order. |
| MemStorage.AllCameras | server/storage.ts:473-475 | The list holds exactly the stored cameras in non-decreasing name order. |
| MemStorage.AllModels | server/storage.ts:509-512 | Every stored model once; every pinned model precedes every unpinned one; names ascend within each group. |
| MemStorage.AllCaptions | server/storage.ts:490-493 | Every stored caption once, newest first. |
| MemStorage.AllEvents | server/storage.ts:514-518 | Returns min(50, stored count) events; they are a prefix of the full newest-first order and are drawn from the store. |
| MemStorage.ReturnedEventsAreTheNewest | server/storage.ts:514-518 | A stored event left out of the listing is no newer than any listed event. |
| MemStorage.GetService | server/storage.ts:417-419 | Found exactly when the id is a key, and the found value is the entry stored under it. |
| MemStorage.GetGpu | server/storage.ts:443-445 | Found exactly when the id is a key, and the found value is the entry stored under it. |
| MemStorage.GetStorage | server/storage.ts:460-462 | Found exactly when the id is a key, and the found value is the entry stored under it. |
| MemStorage.GetCamera | server/storage.ts:477-479 | Found exactly when the id is a key, and the found value is the entry stored under it. |
| MemStorage.UpdateService | server/storage.ts:430-437 | Unknown id: not-found and an identical store. Known id: returns the merge, stores it under the id, and keeps `lastChecked` unless patched. Other keys, key order and other collections are unchanged. |
| MemStorage.UpdateGpu | server/storage.ts:447-454 | As for services, but `lastUpdated` is always the current time, overriding the patch. |
| MemStorage.UpdateStorage | server/storage.ts:464-471 | As for services, but `lastUpdated` is always the current time, overriding the patch. |
| MemStorage.UpdateCamera | server/storage.ts:481-488 | As for services, with no timestamp refresh: `lastCaptionTime` changes only when patched. |
| MemStorage.ServiceMergeLaws | server/storage.ts:434 | The spread merge: an empty patch is the identity, two merges equal one merge of the combined patch, and merging is idempotent. |
| MemStorage.CameraMergeLaws | server/storage.ts:485 | An empty camera patch changes nothing; merging the same patch twice equals merging it once. |
| MemStorage.GetAfterUpdateService | server/storage.ts:430-437 | `getService` after a successful update returns what the update returned. |
| MemStorage.UpdateKeepsServiceKeys | server/storage.ts:430-437 | Services stay stored under their own id through an update, unless the patch carries a different id. |
| MemStorage.CreateService | server/storage.ts:421-428 | The new service is the insert row plus `lastChecked = now`, stored under its id; other keys are unchanged. |
| MemStorage.CreateCaption | server/storage.ts:495-503 | The caption gets the generated id and `timestamp = now`; a fresh id appends exactly one entry and keeps the others. |
| MemStorage.CreateEvent | server/storage.ts:520-528 | The event gets the generated id and `timestamp = now`; a fresh id appends exactly one entry and keeps the others. |
| MemStorage.EventLogIsCutOnReadOnly | server/storage.ts:514-528 | With 50 or more events, creating one grows the store by one while the listing stays at 50. |
| Schema.InsertShapesOmitOnlyTimestamps | shared/schema.ts:34-52 | A GPU or volume split into its insert row and rebuilt with its own `lastUpdated` is unchanged. |
| Schema.ParseCommand | shared/schema.ts:128-130 | Accepted exactly when `command` is a string of length at least 1; the accepted text is that string. |
| Schema.ParseIntent | shared/schema.ts:135 | A parsed intent's name is the text parsed. |
| Schema.IntentNameRoundTrip | shared/schema.ts:135 | Every intent's name parses back to that intent. |
| Schema.Response | shared/schema.ts:134-140 | A response built from an intent, a number, an optional id, a message and a flag passes the response schema and carries that intent. |
| CommandRouter.OpenAtIsPatternMatch | server/routes.ts:262 | `OpenAt` holds exactly where the regex can match: "open", one or more white-space characters, one or more word characters. |
| CommandRouter.OpenToken | server/routes.ts:262-264 | No token exactly when the pattern matches nowhere; a token is non-empty and made of word characters (which token: `CommandRouter.OpenTokenIsLeftmostCapture`). |
| CommandRouter.OpenTokenIsLeftmostCapture | server/routes.ts:262-264 | When "open", n white-space and m word characters start at i, no literal match starts earlier, and the word cannot be extended, the token is exactly those m characters. |
| CommandRouter.OpenTokenOfCommand | server/routes.ts:262-264 | For "open" + white space + a word + text not continuing the word, the token is that word. |
| CommandRouter.FindService | server/routes.ts:265-268 | The first service whose lower-cased name or id contains the token, or none when no service does. |
| CommandRouter.FallbackTarget | server/routes.ts:262-268 | No target exactly when there is no token or no service contains it; a target is the first service in list order whose name or id contains the token. |
| CommandRouter.Fallback | server/routes.ts:252-285 | Always schema-conformant, confidence 0.7, no confirmation. No match: `unknown` with the not-configured message and no id. A match: `open_service` with its id, and an opening or no-URL message by whether it has a URL. |
| CommandRouter.FallbackPicksFirstMatch | server/routes.ts:255-271 | The service picked is the first in list order that matches the token. |
| CommandRouter.WithDefaults | server/routes.ts:315-321 | Each falsy field of the reply takes its default: "unknown", 0.5, undefined, "I'm not sure…", false. Truthy fields pass through. |
| CommandRouter.LookUp | server/routes.ts:324 | Found exactly when the id is a string that is a stored service key, and then it is the service stored under it. |
| CommandRouter.ServiceLabel | server/routes.ts:328 | Never empty: the service's name when it has one, and "Service" when there is no service. |
| CommandRouter.ResolveOpenService | server/routes.ts:323-331 | `open_service` with a truthy id keeps its intent exactly when the service exists and has a URL, with the opening message. Otherwise it becomes `unknown` with "<name or Service> doesn't have a URL configured.". Other replies are unchanged. |
| CommandRouter.DelegatedOpenServiceIsResolvable | server/routes.ts:313-331 | After resolution, `open_service` carries no id or the id of a stored service with a URL. |
| CommandRouter.HandleCommand | server/routes.ts:238-343 | Invalid body: 400 with the invalid-format reply. No credentials: 200 with the fallback over the name-sorted services. Model threw: 500 with the error reply. Otherwise: 200 with the resolved reply. Non-200 replies are `unknown` with confidence 0. |
| CommandRouter.HandlerRepliesConform | server/routes.ts:240-285 | Every reply the handler builds itself passes the response schema. |
| CommandRouter.DelegatedIntentIsNotValidated | server/routes.ts:313-333 | A model reply with an intent outside the enum reaches the client unchanged and fails the schema. |
| Handlers.UsedAfterOffload | server/routes.ts:214-215 | Never negative and never more than before; from a non-negative value it frees exactly min(used, 200). |
| Handlers.PercentOf | server/routes.ts:216 | With a non-zero total, percent × total = used × 100; it lies in [0, 100] when 0 ≤ used ≤ total. |
| Handlers.OffloadTarget | server/routes.ts:210-213 | Found exactly when the id is a string that is a stored volume key, and then it is the volume stored under it. |
| Handlers.OffloadPatch | server/routes.ts:214-221 | Patches only the used space, to the used space after freeing 200 GB, and the usage, to its percentage of the capacity. |
| Handlers.OffloadEvent | server/routes.ts:223-229 | A `storage`/`info` event titled with the volume name, described as "Freed 200 GB - usage now at " + the new usage to one decimal + "%", with metadata `storageId` and `freedGB = 200`. For a volume with capacity the decimal reads back within 0.05 of the stored usage. |
| Handlers.Offload | server/routes.ts:202-235 | Falsy id: 400, store unchanged. Unknown id: 404, store unchanged. Otherwise the stored volume is the old one with only used space, usage and `lastUpdated` replaced (by the freed space, its percentage and the first clock read); no other volume changes, keys are kept, and exactly that storage event, stamped by the second clock read, is appended. |
| Handlers.OffloadStampsAreSeparate | server/routes.ts:218-229 | The volume's `lastUpdated` is the first clock read and the event's timestamp the second; they agree exactly when the two reads do. |
| Handlers.RepeatedOffloads | server/routes.ts:214-215 | k offloads leave max(0, used − 200k). |
| Handlers.CaptionToggleEvent | server/routes.ts:143-149 | A `vision` event titled "Caption enabled/disabled for <name>" by the JavaScript truthiness of whatever JSON value was sent, with the camera id as metadata. |
| Handlers.PatchCamera | server/routes.ts:133-156 | Unknown camera: not-found, store unchanged. Known camera: merged and stored, keeping the raw `captionEnabled` value; one vision event is appended exactly when the body has `captionEnabled`, whatever its value, null included. |
| Handlers.ToggleEventNamesCameraBeforeRename | server/routes.ts:135-149 | A patch that renames and toggles logs the camera's old name. |
| LiveMetrics.MetricsPayload | server/routes.ts:23-37 | A `metrics_update` message carrying the name-sorted GPU and storage lists. |
| LiveMetrics.ReconcileSlot | client/src/hooks/use-websocket.ts:36-41 | The slot changes exactly when an incoming list is present and differs; the slot then holds it, and otherwise keeps the old value. |
| LiveMetrics.Receive | client/src/hooks/use-websocket.ts:31-53 | Only a well-formed `metrics_update` touches the cache. The two slots are reconciled independently, each by the rule above. |
| LiveMetrics.ReceiveIdempotent | client/src/hooks/use-websocket.ts:36-48 | Receiving the same message again changes nothing. |
| LiveMetrics.UnchangedRepositoryIsQuiet | client/src/hooks/use-websocket.ts:36-48 | After a tick the cache mirrors the repository; a tick over an unchanged repository re-renders nothing, though its timestamp differs. |
| LiveMetrics.IsConnected | client/src/hooks/use-websocket.ts:26-58 | Connected only after some open event; with no close event, connected exactly when some open event occurred. |
| LiveMetrics.IsConnectedIffOpenNotClosed | client/src/hooks/use-websocket.ts:26-58 | Connected exactly when some open event has not been followed by a close. |
| LiveMetrics.DisconnectKeepsCache | client/src/hooks/use-websocket.ts:55-63 | A close or an error leaves the cached lists as they were. |
| Monitors.CriticalIsWarning | client/src/components/storage-monitor.tsx:25-26 | Every volume at 95% or more is also at 85% or more, so every critical volume shows the warning icon. |
| Monitors.StorageTone | client/src/components/storage-monitor.tsx:63-69 | Red exactly when ≥ 95; yellow exactly when ≥ 85 and below 95; neutral exactly below 85. |
| Monitors.AlertIcon | client/src/components/storage-monitor.tsx:36-41 | Shown exactly at warning level, in the bar's (non-neutral) colour. |
| Monitors.StorageToneMonotone | client/src/components/storage-monitor.tsx:25-26 | A fuller volume is never drawn in a milder colour. |
| Monitors.OffloadButton | client/src/components/storage-monitor.tsx:43-48 | Present exactly for warning volumes when a handler is given; pressing it passes the volume's id. |
| Monitors.DrivesWithButton | client/src/components/storage-monitor.tsx:24-53 | The volumes showing a button are exactly the warning ones, in panel order; there are none without a handler. |
| Monitors.Band | client/src/components/gpu-monitor.tsx:55-59 | Red exactly above 90; yellow exactly in (70, 90]; neutral exactly at or below 70. |
| Monitors.BandMonotone | client/src/components/gpu-monitor.tsx:57-58 | A higher percentage is never drawn in a milder colour. |
| Monitors.ThresholdEdges | client/src/components/gpu-monitor.tsx:57-58 | Exactly 90% GPU is yellow and 70% neutral, while exactly 95% and 85% storage are red and yellow. |
| Monitors.UtilizationPercent | client/src/components/gpu-monitor.tsx:23 | The percentage divided by 100 is the stored fraction; a fraction in [0, 1] gives [0, 100]. |
| Monitors.UtilizationBandAsFraction | client/src/components/gpu-monitor.tsx:23-59 | The utilisation bar is red exactly above 0.9 and yellow exactly in (0.7, 0.9]. |
| Monitors.VramTone | client/src/components/gpu-monitor.tsx:71-77 | With capacity, the band of used/total × 100. Without capacity, red exactly when memory is used (Infinity), never yellow. |
| Monitors.FreeVram | client/src/components/gpu-monitor.tsx:25 | Free plus used is the total; free is non-negative exactly when used ≤ total. |
| Monitors.VramRedIffLittleFree | client/src/components/gpu-monitor.tsx:24-25 | With capacity, the VRAM bar is red exactly when less than a tenth of it is free. |
| Monitors.QueuedBadge | client/src/components/gpu-monitor.tsx:32-36 | Shown exactly for a positive queued count, with that count. |
| Monitors.TemperatureAsWritten | client/src/components/gpu-monitor.tsx:38-43 | No reading renders nothing; a non-zero reading renders the thermometer read-out. |
| Monitors.Temperature | client/src/components/gpu-monitor.tsx:38-43 | Every reported temperature, 0 included, is shown with its value, and no stray text ever appears. |
| Monitors.TemperatureDiffersOnlyAtZero | client/src/components/gpu-monitor.tsx:38-43 | The written and the intended read-outs differ exactly on a reading of 0. |
| CaptionTimeline.Visible | client/src/components/caption-timeline.tsx:16-19 | A subsequence of the input, one entry per matching position, that holds exactly the captions whose text or camera name contains the search, ignoring case. |
| CaptionTimeline.EmptySearchShowsAll | client/src/components/caption-timeline.tsx:16-19 | An empty search lists every caption. |
| CaptionTimeline.SearchIgnoresCase | client/src/components/caption-timeline.tsx:16-19 | Searching for a text or for its lower-cased form lists the same captions. |
| CaptionTimeline.LongerSearchNarrows | client/src/components/caption-timeline.tsx:16-19 | A caption listed for a longer search is listed for any prefix of it. |
| CaptionTimeline.EmptyState | client/src/components/caption-timeline.tsx:43-46 | Text only when nothing is listed: "No captions match your search" with a search, "No captions yet" (and no captions at all) without. |
| CommandBar.CanSubmit | client/src/components/ai-command-bar.tsx:74 | The button is enabled only for a non-empty text while nothing is loading. |
| CommandBar.CanSubmitIffNotBlank | client/src/components/ai-command-bar.tsx:43 | The guard, which also disables the button, passes exactly when some character is not white space and nothing is loading. |
| CommandBar.Submit | client/src/components/ai-command-bar.tsx:41-47 | A passing guard sends the untrimmed text and clears the box; a failing one sends nothing and changes nothing. |
| CommandBar.SentCommandsAreAccepted | client/src/components/ai-command-bar.tsx:45 | Every command the dialog sends passes the server's request schema. |
| CommandBar.BlankCommandAcceptedOnlyByServer | client/src/components/ai-command-bar.tsx:43 | A single space passes the server's schema but not the dialog's guard. |
| CommandBar.SetOpen | client/src/components/ai-command-bar.tsx:35-39 | Closing clears the text; opening keeps it. |
| CommandBar.ReopenStartsEmpty | client/src/components/ai-command-bar.tsx:35-39 | A dialog closed and reopened starts with an empty box. |
| CommandBar.IntentLabel | client/src/components/ai-command-bar.tsx:89 | Same length, every `_` replaced by a space, other characters kept, no `_` left. |
| CommandBar.IntentLabelsDistinct | client/src/components/ai-command-bar.tsx:88-90 | Different intents get different labels. |
| CommandBar.ConfidenceLabel | client/src/components/ai-command-bar.tsx:92 | "Confidence: " + digits + "%", where the digits read back within half a unit of confidence × 100. |
| CommandBar.FallbackConfidenceLabel | client/src/components/ai-command-bar.tsx:92 | The fallback's 0.7 is shown as "Confidence: 70%". |
| NumberFormat.Fixed0 | client/src/components/ai-command-bar.tsx:92 | Never empty, and starts with "-" exactly for a negative value. |
| NumberFormat.Fixed1 | server/routes.ts:227 | Ends in "." and one digit, and starts with "-" exactly for a negative value. |
| NumberFormat.Fixed1IsAccurate | server/routes.ts:227 | `toFixed(1)` of a non-negative value reads back within half a tenth of it. |
| Seqs.Filter | client/src/components/caption-timeline.tsx:16-19 | `Array.prototype.filter`: a subsequence of the input whose length is the number of positions satisfying the predicate, holding every satisfying element and nothing else. |
| Seqs.FilterMultiplicity | client/src/components/caption-timeline.tsx:16-19 | Each value occurs in the result as often as in the input when it satisfies the predicate, and not at all otherwise. |
| Seqs.FilterSubMultiset | client/src/components/caption-timeline.tsx:16-19 | The result holds no value more often than the input does. |
| Seqs.Count | client/src/pages/dashboard.tsx:103 | `filter(...).length`: the number of positions satisfying the predicate; zero exactly when none does, the whole length exactly when all do. |
| Dashboard.OnlyFourQueriesGate | client/src/pages/dashboard.tsx:97-101 | The skeleton shows exactly while the services, GPU, storage or camera query loads; the other four queries never matter. |
| Dashboard.OperationalServices | client/src/pages/dashboard.tsx:103-104 | The number of positions holding an operational service; equal to the total exactly when all are operational, and zero exactly when none is. |
| Dashboard.StorageAlerts | client/src/pages/dashboard.tsx:108 | The number of positions holding a volume at 85% or more; equal to the number of volumes the storage panel gives an offload button; zero exactly when no volume shows an alert icon. |
| Dashboard.StorageAlertsSubtitle | client/src/pages/dashboard.tsx:260 | "volumes at capacity" exactly when some volume shows the storage panel's alert icon; "all volumes healthy" exactly when none does. |
| Dashboard.ActiveCameras | client/src/pages/dashboard.tsx:264 | The number of positions holding a camera whose flag is truthy; at most the camera count; zero exactly when no camera has a truthy flag. |
| Dashboard.SumUtilizationBounds | client/src/pages/dashboard.tsx:106 | With fractional utilisations, the sum lies in [0, n]. |
| Dashboard.AvgGpuUtil | client/src/pages/dashboard.tsx:105-107 | 0 with no GPUs; otherwise mean × n = sum, and with fractional inputs the mean is a fraction. |
| Dashboard.AvgGpuUtilLabel | client/src/pages/dashboard.tsx:253 | Ends in "%", and the one-decimal figure reads back within 0.05 of the mean percentage. |
| Dashboard.FindById | client/src/pages/dashboard.tsx:184 | The first service with that id, or none when no service has it. |
| Dashboard.UrlToOpen | client/src/pages/dashboard.tsx:183-191 | A URL is opened only for `open_service` with a non-empty id naming a listed service with a URL, and it is that service's URL. With distinct ids, that service's URL is opened whenever it has one. |
| Dashboard.OnReply | client/src/pages/dashboard.tsx:183-191 | Opening a URL closes the dialog and clears the reply; otherwise the dialog stays open showing the reply. |
| Dashboard.ListedServicesHaveDistinctIds | server/storage.ts:413-415 | When services are stored under their own ids, the listed services have pairwise distinct ids. |
| Dashboard.FallbackOpensChosenServiceUrl | client/src/pages/dashboard.tsx:183-191 | Without credentials, the page opens exactly the URL of the service the fallback picked, if it has one and a non-empty id, and opens nothing otherwise. |
| Dashboard.OffloadButtonFindsVolume | client/src/pages/dashboard.tsx:146-152 | A panel offload button, pressed, always reaches a volume the server finds and offloads. |
| Dashboard.CaptionSwitchIsLogged | client/src/pages/dashboard.tsx:128-132 | The camera card's caption switch always adds exactly one event to the log. |
| Dashboard.FalseStringEnablesCaptions | server/routes.ts:140-149 | A body with `captionEnabled: "false"` logs "Caption enabled for <name>" and the patched camera counts as active. |
| Dashboard.ZeroDisablesCaptions | server/routes.ts:140-149 | A body with `captionEnabled: 0` logs "Caption disabled for <name>" and the patched camera counts as inactive. |
| CommandExamples.OpenLangfuse | server/routes.ts:262-274 | "Open Langfuse" over the seeded Caddy and Langfuse yields `open_service` for "langfuse" with "Opening Langfuse in a new tab...". |
| CommandExamples.OpenCaddy | server/routes.ts:262-274 | "open caddy" yields `open_service` for "caddy" with "Caddy doesn't have a URL configured.". |
| CommandExamples.OpenWithoutSpace | server/routes.ts:262 | "opencaddy" matches nothing and gets the not-configured reply. |
| OffloadExample.OffloadModelsDrive | server/storage.ts:183-194 | The seeded models drive goes from 1880 GB (94%) to 1680 GB (84%), formatted "84.0", and loses its offload button. |

## Left out

- **The websocket broadcast loop and the client's reconnect timer.** The five-second `setInterval`, `readyState` check, `clearInterval` and three-second `setTimeout` are timing and concurrency. The payload is modelled as a function of the store, and socket events are a sequence.
- **The language model call.** This covers the OpenAI client, the system prompt with its service list, and `JSON.parse` of the completion. Foreign I/O: the handler takes the parsed reply (or a throw) as input.
- **`randomUUID()` and `new Date()`.** Nondeterministic: they are the `id` and `now` parameters, one per read (an offload reads the clock twice, so it takes two).
- **The other routes.** The plain GET handlers only forward to the repository operations modelled here. The Home Assistant getter returns a stored value unchanged.
- **Framework plumbing.** Express routing, status codes beyond a result tag, logging, react-query invalidation, toasts, the keyboard shortcut, and the one-second delay before opening a URL.
- **Presentation components outside the core.** Service card, camera grid, model registry, event timeline, Home Assistant panel, metric card, status indicator and loading skeleton: markup and lookup tables.
- **Seed data.** Only the Langfuse, Caddy and models-drive rows appear, as example inputs.
- Text.Lower: `toLowerCase` is modelled for ASCII letters only; Unicode case mapping is not modelled.
- MemStorage.AllServices: `localeCompare` is locale-dependent. This and the other name-sorted lists (`AllGpus`, `AllStorage`, `AllCameras`, `AllModels`) use code-point lexicographic order instead. The contracts state order and contents, not the stability of the sort.
- LiveMetrics.ReconcileSlot: `JSON.stringify(old) === JSON.stringify(new)` is modelled as value equality. This is the same comparison for these records, since both sides come from the same server serialisation.
- Handlers.PercentOf: with a total of 0 the source stores NaN or Infinity; the model stores 0.
- Handlers.OffloadEvent: the description's `toFixed(1)` is modelled on exact reals, so NaN or Infinity text for a zero-capacity volume does not arise.
- NumberFormat.Fixed1IsAccurate: numbers are exact reals, not IEEE doubles. Binary rounding before `toFixed`, and exponent notation at 1e21 and above, are not modelled.
- All numbers are exact reals, not IEEE doubles, in every member that computes with them. Rounding of products and quotients is not modelled. For example, `0.57 * 100` is `56.99999999999999` as a double, and `0.7000000000000001 * 100` is exactly `70.0`, so a utilisation just above 0.7 can draw a neutral bar in the browser where the model draws yellow. This affects `NumberFormat.Fixed0`, `NumberFormat.Fixed1`, `Handlers.PercentOf`, `Handlers.OffloadEvent`, `Monitors.UtilizationPercent`, `Monitors.UtilizationBandAsFraction`, `Monitors.VramTone`, `Monitors.VramRedIffLittleFree`, `Dashboard.AvgGpuUtil`, `Dashboard.AvgGpuUtilLabel` and `CommandBar.ConfidenceLabel`.
- Handlers.PatchCamera: only `captionEnabled` is kept as raw JSON. The other camera fields of the body are typed, though the route stores whatever the body carries.
- Monitors.VramTone: with a zero total, JavaScript's Infinity, NaN and -Infinity are modelled by their comparison outcomes only.
- CaptionTimeline.Visible: the search is case-insensitive for ASCII only, as `Text.Lower` is.

## Findings

| source | as written | input that shows it | evidently intended | confidence | as-written member | corrected member |
|---|---|---|---|---|---|---|
| client/src/components/gpu-monitor.tsx:38-43 | `{gpu.temperature && (…)}` renders the left operand when it is falsy; React prints the number 0 as text. | A GPU whose `temperature` is 0: the card shows a bare "0" beside the name and no thermometer read-out. | Show the read-out for every reported temperature (`temperature != null`), and nothing when there is none. | medium; not executed | Monitors.TemperatureAsWritten | Monitors.Temperature |

`Monitors.ZeroDegreesRendersStrayZero` exhibits the stray "0" for a reading of 0.
`Monitors.TemperatureDiffersOnlyAtZero` proves that the two read-outs agree on every other input.
