/**
  The `/api/ai/command` handler (server/routes.ts): the input gate, the
  deterministic fallback used when no language-model credentials are
  configured, and the post-processing of the model's reply. The model call
  itself is not modelled: its outcome for the command is a parameter.
 */
module CommandRouter {
  import opened Wrappers
  import opened Schema
  import opened Text
  import Table
  import MemStorage

  const InvalidFormatMessage := "Invalid command format"
  const NotConfiguredMessage := "AI features are not configured. I can help you with basic commands."
  const NotSureMessage := "I'm not sure what you want to do."
  const ErrorMessage := "Sorry, I encountered an error processing your command."

  /** The fixed confidence of every fallback answer. */
  const FallbackConfidence: real := 0.7
  /** What a missing or zero confidence in the model's reply becomes. */
  const DefaultConfidence: real := 0.5

  /** The 400 payload for a body that fails `aiCommandSchema`. */
  const InvalidFormat: CommandResponse := Response(Unknown, 0.0, None, InvalidFormatMessage, false)

  /** The 500 payload for any error thrown while consulting the model. */
  const ErrorReply: CommandResponse := Response(Unknown, 0.0, None, ErrorMessage, false)

  // ---------------------------------------------------------------------------
  // The pattern `open\s+(\w+)`
  // ---------------------------------------------------------------------------

  /** Length of the run of white space starting at `j`. */
  function SpaceRun(s: string, j: nat): (n: nat)
    requires j <= |s|
    ensures j + n <= |s|
    ensures forall k :: j <= k < j + n ==> IsSpace(s[k])
    ensures j + n == |s| || !IsSpace(s[j + n])
    decreases |s| - j
  {
    if j < |s| && IsSpace(s[j]) then 1 + SpaceRun(s, j + 1) else 0
  }

  /** Length of the run of word characters starting at `j`. */
  function WordRun(s: string, j: nat): (n: nat)
    requires j <= |s|
    ensures j + n <= |s|
    ensures forall k :: j <= k < j + n ==> IsWordChar(s[k])
    ensures j + n == |s| || !IsWordChar(s[j + n])
    decreases |s| - j
  {
    if j < |s| && IsWordChar(s[j]) then 1 + WordRun(s, j + 1) else 0
  }

  /**
    The pattern matches at `i`. Because no character is both white space and a
    word character, `\s+` can only succeed by taking the whole run of white
    space, and `\w+` then needs at least one word character after it.
   */
  predicate OpenAt(s: string, i: nat) {
    && i + 4 <= |s| && s[i..i + 4] == "open"
    && SpaceRun(s, i + 4) >= 1
    && WordRun(s, i + 4 + SpaceRun(s, i + 4)) >= 1
  }

  /** The literal reading of the pattern at `i`: `open`, `n` white-space and `m` word characters. */
  predicate PatternAt(s: string, i: nat, n: nat, m: nat) {
    && i + 4 + n + m <= |s| && s[i..i + 4] == "open" && n >= 1 && m >= 1
    && (forall k :: i + 4 <= k < i + 4 + n ==> IsSpace(s[k]))
    && (forall k :: i + 4 + n <= k < i + 4 + n + m ==> IsWordChar(s[k]))
  }

  /** `OpenAt` is exactly where the regular expression can match. */
  lemma OpenAtIsPatternMatch(s: string, i: nat)
    ensures OpenAt(s, i) <==> exists n: nat, m: nat :: PatternAt(s, i, n, m)
  {
    if OpenAt(s, i) {
      var n := SpaceRun(s, i + 4);
      assert PatternAt(s, i, n, WordRun(s, i + 4 + n));
    }
    if exists n: nat, m: nat :: PatternAt(s, i, n, m) {
      var n: nat, m: nat :| PatternAt(s, i, n, m);
      var j := i + 4;
      SpaceIsNotWordChar(s[j + n]);
      SpaceRunCovers(s, j, n);
      SpaceRunStops(s, j, n);
      assert SpaceRun(s, j) == n;
      assert IsWordChar(s[j + n]);
    }
  }

  /** A run of `n` white-space characters at `j` is covered by `SpaceRun`. */
  lemma {:induction false} SpaceRunCovers(s: string, j: nat, n: nat)
    requires j + n <= |s|
    requires forall k :: j <= k < j + n ==> IsSpace(s[k])
    ensures SpaceRun(s, j) >= n
    decreases n
  {
    if n > 0 {
      assert IsSpace(s[j]);
      SpaceRunCovers(s, j + 1, n - 1);
    }
  }

  /** `SpaceRun` does not extend past a character that is not white space. */
  lemma {:induction false} SpaceRunStops(s: string, j: nat, n: nat)
    requires j + n < |s| && !IsSpace(s[j + n])
    ensures SpaceRun(s, j) <= n
    decreases n
  {
    if n > 0 && IsSpace(s[j]) {
      SpaceRunStops(s, j + 1, n - 1);
    }
  }

  /** A run of `n` word characters at `j` is covered by `WordRun`. */
  lemma {:induction false} WordRunCovers(s: string, j: nat, n: nat)
    requires j + n <= |s|
    requires forall k :: j <= k < j + n ==> IsWordChar(s[k])
    ensures WordRun(s, j) >= n
    decreases n
  {
    if n > 0 {
      assert IsWordChar(s[j]);
      WordRunCovers(s, j + 1, n - 1);
    }
  }

  /** The leftmost match at or after `from`: where a regular-expression search finds it. */
  function FirstOpenFrom(s: string, from: nat): (r: Option<nat>)
    ensures r.Some? ==> from <= r.value && OpenAt(s, r.value)
    ensures r.Some? ==> forall k :: from <= k < r.value ==> !OpenAt(s, k)
    ensures r.None? ==> forall k :: from <= k ==> !OpenAt(s, k)
    decreases |s| - from
  {
    if from + 4 > |s| then None
    else if OpenAt(s, from) then Some(from)
    else FirstOpenFrom(s, from + 1)
  }

  /**
    The first capture group of `s.match(/open\s+(\w+)/i)`: the whole run of
    word characters after the first `open` that is followed by white space
    and a word character.
   */
  function OpenToken(s: string): (r: Option<string>)
    ensures r.None? <==> forall k :: !OpenAt(s, k)
    ensures r.Some? ==> |r.value| >= 1 && forall k :: 0 <= k < |r.value| ==> IsWordChar(r.value[k])
  {
    match FirstOpenFrom(s, 0)
    case None => None
    case Some(i) => Some(CaptureAt(s, i))
  }

  /** The capture group of a match at `i`: the word run after the white-space run. */
  function CaptureAt(s: string, i: nat): (w: string)
    requires OpenAt(s, i)
    ensures |w| >= 1 && forall k :: 0 <= k < |w| ==> IsWordChar(w[k])
  {
    var j := i + 4 + SpaceRun(s, i + 4);
    s[j..j + WordRun(s, j)]
  }

  /** At a literal match the two runs are exactly `n` and `m` long when the word ends at `i + 4 + n + m`. */
  lemma RunsAt(s: string, i: nat, n: nat, m: nat)
    requires PatternAt(s, i, n, m)
    requires i + 4 + n + m == |s| || !IsWordChar(s[i + 4 + n + m])
    ensures SpaceRun(s, i + 4) == n && WordRun(s, i + 4 + n) == m
    ensures OpenAt(s, i)
  {
    var j := i + 4 + n;
    SpaceRunCovers(s, i + 4, n);
    SpaceIsNotWordChar(s[j]);
    SpaceRunStops(s, i + 4, n);
    WordRunCovers(s, j, m);
  }

  /** With the leftmost match at `i`, the token is the word run after the space run there. */
  lemma TokenOfLeftmostMatch(s: string, i: nat)
    requires OpenAt(s, i)
    requires forall k :: 0 <= k < i ==> !OpenAt(s, k)
    ensures OpenToken(s) == Some(CaptureAt(s, i))
  {
    FirstOpenFromFinds(s, 0, i);
  }

  /** The search from `from` stops at the first match at or after it. */
  lemma {:induction false} FirstOpenFromFinds(s: string, from: nat, i: nat)
    requires from <= i && OpenAt(s, i)
    requires forall k :: from <= k < i ==> !OpenAt(s, k)
    ensures FirstOpenFrom(s, from) == Some(i)
    decreases i - from
  {
    if from < i {
      assert !OpenAt(s, from);
      FirstOpenFromFinds(s, from + 1, i);
    }
  }

  /** Where no literal match starts, `OpenAt` is false. */
  lemma NoOpenWithoutPattern(s: string, k: nat)
    requires forall n: nat, m: nat :: !PatternAt(s, k, n, m)
    ensures !OpenAt(s, k)
  {
    if OpenAt(s, k) {
      var n := SpaceRun(s, k + 4);
      assert PatternAt(s, k, n, WordRun(s, k + 4 + n));
    }
  }

  /**
    The token is the capture of the leftmost literal match: when `open`, `n`
    white-space and `m` word characters start at `i`, no literal match starts
    earlier, and the word cannot be extended, the token is those `m` characters.
   */
  lemma OpenTokenIsLeftmostCapture(s: string, i: nat, n: nat, m: nat)
    requires PatternAt(s, i, n, m)
    requires i + 4 + n + m == |s| || !IsWordChar(s[i + 4 + n + m])
    requires forall k: nat, n': nat, m': nat :: k < i ==> !PatternAt(s, k, n', m')
    ensures OpenToken(s) == Some(s[i + 4 + n..i + 4 + n + m])
  {
    CaptureOfPattern(s, i, n, m);
    NoEarlierOpen(s, i);
    TokenOfLeftmostMatch(s, i);
  }

  /** At a literal match whose word cannot be extended, the capture is that word. */
  lemma CaptureOfPattern(s: string, i: nat, n: nat, m: nat)
    requires PatternAt(s, i, n, m)
    requires i + 4 + n + m == |s| || !IsWordChar(s[i + 4 + n + m])
    ensures OpenAt(s, i) && CaptureAt(s, i) == s[i + 4 + n..i + 4 + n + m]
  {
    RunsAt(s, i, n, m);
  }

  /** No literal match before `i` means no `OpenAt` before `i`. */
  lemma NoEarlierOpen(s: string, i: nat)
    requires forall k: nat, n': nat, m': nat :: k < i ==> !PatternAt(s, k, n', m')
    ensures forall k :: 0 <= k < i ==> !OpenAt(s, k)
  {
    forall k | 0 <= k < i
      ensures !OpenAt(s, k)
    {
      NoOpenWithoutPattern(s, k);
    }
  }

  /** A match at the very start whose word ends at `4 + n + m` yields that word. */
  lemma OpenTokenAtStart(s: string, n: nat, m: nat)
    requires PatternAt(s, 0, n, m)
    requires 4 + n + m == |s| || !IsWordChar(s[4 + n + m])
    ensures OpenToken(s) == Some(s[4 + n..4 + n + m])
  {
    OpenTokenIsLeftmostCapture(s, 0, n, m);
  }

  /** The plainest command, "open " and a word, yields that word. */
  lemma OpenTokenOfWord(word: string)
    requires |word| >= 1 && forall k :: 0 <= k < |word| ==> IsWordChar(word[k])
    ensures OpenToken("open " + word) == Some(word)
  {
    assert IsSpace(" "[0]);
    OpenTokenOfCommand(" ", word, "");
    assert "open" + " " + word + "" == "open " + word;
  }

  /**
    A command that starts with "open", white space and a word (followed by
    anything that does not continue the word) yields that word.
   */
  lemma OpenTokenOfCommand(space: string, word: string, rest: string)
    requires |space| >= 1 && forall k :: 0 <= k < |space| ==> IsSpace(space[k])
    requires |word| >= 1 && forall k :: 0 <= k < |word| ==> IsWordChar(word[k])
    requires |rest| == 0 || !IsWordChar(rest[0])
    ensures OpenToken("open" + space + word + rest) == Some(word)
  {
    var a := "open" + space;
    var b := a + word;
    var s := b + rest;
    var j := |a|;
    assert s[..4] == "open" by {
      assert s[..4] == a[..4];
    }
    assert forall k :: 4 <= k < j ==> IsSpace(s[k]) by {
      forall k | 4 <= k < j
        ensures IsSpace(s[k])
      {
        assert s[k] == a[k] == space[k - 4];
      }
    }
    assert forall k :: j <= k < j + |word| ==> IsWordChar(s[k]) by {
      forall k | j <= k < j + |word|
        ensures IsWordChar(s[k])
      {
        assert s[k] == b[k] == word[k - j];
      }
    }
    assert PatternAt(s, 0, |space|, |word|);
    if |rest| > 0 {
      assert s[|b|] == rest[0];
    }
    OpenTokenAtStart(s, |space|, |word|);
    assert s[j..j + |word|] == word by {
      assert s[j..j + |word|] == b[j..];
    }
  }

  // ---------------------------------------------------------------------------
  // Service resolution
  // ---------------------------------------------------------------------------

  /** `name.toLowerCase().includes(t.toLowerCase()) || id.toLowerCase().includes(t.toLowerCase())`. */
  predicate NameOrIdContains(svc: Service, token: string) {
    Contains(Lower(svc.name), Lower(token)) || Contains(Lower(svc.id), Lower(token))
  }

  /** `services.find(...)`: the position of the first service whose name or id contains the token. */
  function FindService(services: seq<Service>, token: string): (r: Option<nat>)
    ensures r.Some? ==> r.value < |services| && NameOrIdContains(services[r.value], token)
    ensures r.Some? ==> forall j :: 0 <= j < r.value ==> !NameOrIdContains(services[j], token)
    ensures r.None? ==> forall j :: 0 <= j < |services| ==> !NameOrIdContains(services[j], token)
  {
    if |services| == 0 then None
    else if NameOrIdContains(services[0], token) then Some(0)
    else match FindService(services[1..], token)
      case None => None
      case Some(i) => Some(i + 1)
  }

  /** `service.url` is truthy: present and not empty. */
  predicate HasUrl(svc: Service) {
    svc.url.Some? && svc.url.value != ""
  }

  function OpeningMessage(name: string): string {
    "Opening " + name + " in a new tab..."
  }

  function NoUrlMessage(name: string): string {
    name + " doesn't have a URL configured."
  }

  // ---------------------------------------------------------------------------
  // Fallback mode
  // ---------------------------------------------------------------------------

  /** The service the fallback heuristic picks for `command` from the name-sorted list, if any. */
  function FallbackTarget(command: string, services: seq<Service>): (r: Option<nat>)
    ensures var token := OpenToken(Lower(command));
      r.None? <==> token.None? || forall j :: 0 <= j < |services| ==> !NameOrIdContains(services[j], token.value)
    ensures var token := OpenToken(Lower(command));
      r.Some? ==> && token.Some? && r.value < |services| && NameOrIdContains(services[r.value], token.value)
                  && forall j :: 0 <= j < r.value ==> !NameOrIdContains(services[j], token.value)
  {
    match OpenToken(Lower(command))
    case None => None
    case Some(t) => FindService(services, t)
  }

  /**
    The answer given without a language model. On a match: `open_service`
    with the service's id, and a message that depends on its URL (the intent
    stays `open_service` even when there is none). Otherwise `unknown` with
    the not-configured message. Always confidence 0.7, never a confirmation.
   */
  function Fallback(command: string, services: seq<Service>): (r: CommandResponse)
    ensures ConformsToResponseSchema(r)
    ensures r.confidence == Num(FallbackConfidence) && r.requiresConfirmation == Bool(false)
    ensures FallbackTarget(command, services).None? ==>
      r.intent == Str("unknown") && r.serviceId == Undefined && r.message == Str(NotConfiguredMessage)
    ensures FallbackTarget(command, services).Some? ==>
      var svc := services[FallbackTarget(command, services).value];
      && r.intent == Str("open_service") && r.serviceId == Str(svc.id)
      && r.message == Str(if HasUrl(svc) then OpeningMessage(svc.name) else NoUrlMessage(svc.name))
  {
    match FallbackTarget(command, services)
    case None => Response(Unknown, FallbackConfidence, None, NotConfiguredMessage, false)
    case Some(i) =>
      var svc := services[i];
      Response(OpenService, FallbackConfidence, Some(svc.id),
               if HasUrl(svc) then OpeningMessage(svc.name) else NoUrlMessage(svc.name), false)
  }

  /**
    The fallback's choice is the first service in list order matching the
    token of the first `open <word>` in the lower-cased command.
   */
  lemma FallbackPicksFirstMatch(command: string, services: seq<Service>, i: nat)
    requires i < |services|
    ensures var token := OpenToken(Lower(command));
      token.Some? && NameOrIdContains(services[i], token.value)
      && (forall j :: 0 <= j < i ==> !NameOrIdContains(services[j], token.value))
      ==> Fallback(command, services).serviceId == Str(services[i].id)
          && Fallback(command, services).intent == Str("open_service")
  {
    var token := OpenToken(Lower(command));
    if token.Some? && NameOrIdContains(services[i], token.value)
      && (forall j :: 0 <= j < i ==> !NameOrIdContains(services[j], token.value))
    {
      assert FindService(services, token.value) == Some(i);
      assert FallbackTarget(command, services) == Some(i);
    }
  }

  // ---------------------------------------------------------------------------
  // Delegated mode
  // ---------------------------------------------------------------------------

  /** The fields of the model's JSON reply, as parsed. */
  datatype Reply = Reply(intent: Json, confidence: Json, serviceId: Json, message: Json, requiresConfirmation: Json)

  /**
    What consulting the model produced. `Threw` covers a failed call, content
    that is not JSON, and JSON `null` (reading a field of it throws). Any
    other parsed value is a `Parsed` reply; a non-object reads as a reply
    whose fields are all `Undefined`, as does missing content (`"{}"`).
   */
  datatype Completion = Threw | Parsed(reply: Reply)

  /** The `||` defaults applied to the model's reply. */
  function WithDefaults(a: Reply): (r: CommandResponse)
    ensures Truthy(r.intent) && Truthy(r.confidence) && Truthy(r.message)
    ensures r.intent == (if Truthy(a.intent) then a.intent else Str("unknown"))
    ensures r.confidence == (if Truthy(a.confidence) then a.confidence else Num(DefaultConfidence))
    ensures r.serviceId == (if Truthy(a.serviceId) then a.serviceId else Undefined)
    ensures r.message == (if Truthy(a.message) then a.message else Str(NotSureMessage))
    ensures r.requiresConfirmation == (if Truthy(a.requiresConfirmation) then a.requiresConfirmation else Bool(false))
  {
    CommandResponse(
      Or(a.intent, Str("unknown")),
      Or(a.confidence, Num(DefaultConfidence)),
      Or(a.serviceId, Undefined),
      Or(a.message, Str(NotSureMessage)),
      Or(a.requiresConfirmation, Bool(false)))
  }

  /** `storage.getService(serviceId)`: a non-string key never finds a service. */
  function LookUp(store: MemStorage.Store, serviceId: Json): (r: Option<Service>)
    ensures r.Some? <==> serviceId.Str? && serviceId.s in Table.Keys(store.services)
    ensures r.Some? ==> Table.Entry(serviceId.s, r.value) in store.services
  {
    if serviceId.Str? then MemStorage.GetService(store, serviceId.s) else None
  }

  /** `${service?.name || "Service"}`. */
  function ServiceLabel(svc: Option<Service>): (name: string)
    ensures name != ""
    ensures svc.Some? && svc.value.name != "" ==> name == svc.value.name
    ensures svc.None? ==> name == "Service"
  {
    if svc.Some? && svc.value.name != "" then svc.value.name else "Service"
  }

  /**
    Resolution of an `open_service` reply against the repository: the intent
    is kept, with the canonical opening message, exactly when the service
    exists and has a URL; otherwise it is downgraded to `unknown` with the
    no-URL message. Anything else passes through unchanged.
   */
  function ResolveOpenService(r: CommandResponse, store: MemStorage.Store): (out: CommandResponse)
    ensures out.confidence == r.confidence && out.serviceId == r.serviceId
    ensures out.requiresConfirmation == r.requiresConfirmation
    ensures !(r.intent == Str("open_service") && Truthy(r.serviceId)) ==> out == r
    ensures r.intent == Str("open_service") && Truthy(r.serviceId) ==>
      var svc := LookUp(store, r.serviceId);
      && (out.intent == r.intent <==> svc.Some? && HasUrl(svc.value))
      && (svc.Some? && HasUrl(svc.value) ==> out.message == Str(OpeningMessage(svc.value.name)))
      && (!(svc.Some? && HasUrl(svc.value)) ==>
            out.intent == Str("unknown") && out.message == Str(NoUrlMessage(ServiceLabel(svc))))
  {
    if r.intent == Str("open_service") && Truthy(r.serviceId) then
      var svc := LookUp(store, r.serviceId);
      if svc.Some? && HasUrl(svc.value) then r.(message := Str(OpeningMessage(svc.value.name)))
      else r.(message := Str(NoUrlMessage(ServiceLabel(svc))), intent := Str("unknown"))
    else r
  }

  /**
    After resolution, `open_service` survives either without a service id
    (nothing to resolve, so the client opens nothing) or with one that names
    a stored service with a URL.
   */
  lemma DelegatedOpenServiceIsResolvable(a: Reply, store: MemStorage.Store)
    ensures var out := ResolveOpenService(WithDefaults(a), store);
      out.intent == Str("open_service") ==>
        || out.serviceId == Undefined
        || (out.serviceId.Str? && MemStorage.GetService(store, out.serviceId.s).Some?
            && HasUrl(MemStorage.GetService(store, out.serviceId.s).value))
  {
  }

  // ---------------------------------------------------------------------------
  // The handler
  // ---------------------------------------------------------------------------

  /** The two environment variables the handler checks on every call. */
  datatype Env = Env(baseUrl: Option<string>, apiKey: Option<string>)

  /** Both variables set and non-empty: otherwise the fallback runs. */
  predicate Configured(env: Env) {
    env.baseUrl.Some? && env.baseUrl.value != "" && env.apiKey.Some? && env.apiKey.value != ""
  }

  datatype HttpReply = HttpReply(status: int, body: CommandResponse)

  /**
    `POST /api/ai/command`. `completion` is what the model returned for this
    command; it is consulted only when credentials are configured.
   */
  function HandleCommand(body: CommandBody, env: Env, store: MemStorage.Store, completion: Completion): (r: HttpReply)
    ensures ParseCommand(body).None? ==> r == HttpReply(400, InvalidFormat)
    ensures ParseCommand(body).Some? && !Configured(env) ==>
      r == HttpReply(200, Fallback(ParseCommand(body).value, MemStorage.AllServices(store)))
    ensures ParseCommand(body).Some? && Configured(env) && completion.Threw? ==> r == HttpReply(500, ErrorReply)
    ensures ParseCommand(body).Some? && Configured(env) && completion.Parsed? ==>
      r == HttpReply(200, ResolveOpenService(WithDefaults(completion.reply), store))
    ensures r.status != 200 ==> r.body.intent == Str("unknown") && r.body.confidence == Num(0.0)
  {
    match ParseCommand(body)
    case None => HttpReply(400, InvalidFormat)
    case Some(command) =>
      if !Configured(env) then HttpReply(200, Fallback(command, MemStorage.AllServices(store)))
      else match completion
        case Threw => HttpReply(500, ErrorReply)
        case Parsed(a) => HttpReply(200, ResolveOpenService(WithDefaults(a), store))
  }

  /**
    Every reply the handler builds itself matches the response schema; only
    a reply passed through from the model can break it.
   */
  lemma HandlerRepliesConform(body: CommandBody, env: Env, store: MemStorage.Store, completion: Completion)
    requires ParseCommand(body).None? || !Configured(env) || completion.Threw?
    ensures ConformsToResponseSchema(HandleCommand(body, env, store, completion).body)
  {
  }

  /** The model's reply is not checked against the schema: an intent outside the enum reaches the client. */
  lemma DelegatedIntentIsNotValidated(store: MemStorage.Store)
    ensures var a := Reply(Str("launch"), Num(0.9), Undefined, Str("ok"), Bool(false));
      !ConformsToResponseSchema(HandleCommand(Object(Str("launch it")), Env(Some("u"), Some("k")), store, Parsed(a)).body)
  {
    var a := Reply(Str("launch"), Num(0.9), Undefined, Str("ok"), Bool(false));
    assert ParseCommand(Object(Str("launch it"))) == Some("launch it");
    assert Configured(Env(Some("u"), Some("k")));
    var r := WithDefaults(a);
    assert r.intent == Str("launch");
    assert ResolveOpenService(r, store) == r;
    // No intent name has the six characters of "launch".
    assert ParseIntent("launch").None?;
  }
}
