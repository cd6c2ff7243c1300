/**
 * A single REST request (modules/qs/rest_foundation.py): composing the call
 * from class-wide defaults and per-request values, classifying the response,
 * choosing what to log, and the fixed order of the steps of `make_request`.
 *
 * The network call is an input `Response`; the rate-limiter hooks, the
 * request hooks and the log calls are recorded as `Event`s.
 */
module RestFoundation {
  import opened Values
  import Util

  const GET: string := "GET"
  const PUT: string := "PUT"
  const POST: string := "POST"
  const DELETE: string := "DELETE"

  /** What the server sent back. `json` is None when the body is not valid JSON. */
  datatype Response = Response(statusCode: int, text: string, json: Option<Value>)

  /** The class attributes a request subclass sets (`base_url`, `base_params`, ...). */
  datatype RequestClass = RequestClass(
    name: string,
    baseUrl: string,
    baseParams: Record,
    baseRequestData: Record,
    baseHeaders: Record,
    initialFields: seq<Value>)

  /** The logger call a log step makes. */
  datatype LogLevel = InfoLog | ErrorLog | CriticalLog

  /** One observable step of `make_request`. */
  datatype Event =
    | BeforeHook
    | LogBefore(level: LogLevel, entry: Record)
    | RegisterRequest(url: string)
    | Send(verb: string, url: string, params: Record, data: Record, headers: Record)
    | RegisterResponse(statusCode: int)
    | ProcessResponseEvent
    | AfterHook
    | LogAfter(level: LogLevel, entry: Record)

  /** The kind of an event, for stating the order of steps. */
  datatype Step = BeforeStep | LogBeforeStep | RegisterRequestStep | SendStep
                | RegisterResponseStep | ProcessStep | AfterStep | LogAfterStep

  function StepOf(e: Event): Step {
    match e
    case BeforeHook => BeforeStep
    case LogBefore(_, _) => LogBeforeStep
    case RegisterRequest(_) => RegisterRequestStep
    case Send(_, _, _, _, _) => SendStep
    case RegisterResponse(_) => RegisterResponseStep
    case ProcessResponseEvent => ProcessStep
    case AfterHook => AfterStep
    case LogAfter(_, _) => LogAfterStep
  }

  function StepsOf(es: seq<Event>): (r: seq<Step>)
    ensures |r| == |es|
  {
    seq(|es|, j requires 0 <= j < |es| => StepOf(es[j]))
  }

  /**
   * The steps of `make_request`, in order: before-hook, log-before, register
   * the request, send, register the response, process the response, and, when
   * processing completed, the after-hook and log-after. A silent request has
   * no log steps.
   */
  function ExpectedSteps(silent: bool, completed: bool): seq<Step> {
    [BeforeStep] + (if silent then [] else [LogBeforeStep])
    + [RegisterRequestStep, SendStep, RegisterResponseStep, ProcessStep]
    + (if completed then [AfterStep] + (if silent then [] else [LogAfterStep]) else [])
  }

  /**
   * The before-hook comes first and the log-before second; the request is
   * registered with the rate limiter, then sent, then its response
   * registered and processed; a completed request ends with the after-hook
   * and then the log-after.
   */
  lemma ExpectedStepsOrder(silent: bool, completed: bool)
    ensures var s := ExpectedSteps(silent, completed);
      var o := if silent then 0 else 1;
      && s[0] == BeforeStep
      && (!silent ==> s[1] == LogBeforeStep)
      && s[o + 1] == RegisterRequestStep && s[o + 2] == SendStep
      && s[o + 3] == RegisterResponseStep && s[o + 4] == ProcessStep
      && (completed ==> s[o + 5] == AfterStep && |s| == 2 * o + 6)
      && (completed && !silent ==> s[|s| - 1] == LogAfterStep)
      && (!completed ==> |s| == o + 5)
  {
  }

  /** A silent request logs nothing, before or after. */
  lemma SilentLogsNothing(completed: bool)
    ensures LogBeforeStep !in ExpectedSteps(true, completed)
    ensures LogAfterStep !in ExpectedSteps(true, completed)
  {
  }

  /**
   * The events of one `make_request`: the before-hook, the before-log unless
   * silent, the rate-limiter registration of the url, the call itself, the
   * registration of the response and its processing; then, if processing
   * completed, the after-hook and the after-log at `AfterLevel`.
   */
  function RequestTrace(silent: bool, critical: bool, beforeEntry: Record, sent: Event,
                        statusCode: int, processed: bool, afterEntry: Record): seq<Event>
    requires sent.Send?
  {
    [BeforeHook] + (if silent then [] else [LogBefore(InfoLog, beforeEntry)])
    + [RegisterRequest(sent.url), sent, RegisterResponse(statusCode), ProcessResponseEvent]
    + (if !processed then []
       else [AfterHook] + (if silent then [] else [LogAfter(AfterLevel(silent, statusCode == 200, critical).value, afterEntry)]))
  }

  /** The events of a request follow the steps of `ExpectedSteps`. */
  lemma RequestTraceSteps(silent: bool, critical: bool, beforeEntry: Record, sent: Event,
                          statusCode: int, processed: bool, afterEntry: Record)
    requires sent.Send?
    ensures StepsOf(RequestTrace(silent, critical, beforeEntry, sent, statusCode, processed, afterEntry))
         == ExpectedSteps(silent, processed)
  {
    var t := RequestTrace(silent, critical, beforeEntry, sent, statusCode, processed, afterEntry);
    var steps := ExpectedSteps(silent, processed);
    assert |t| == |steps|;
    forall j | 0 <= j < |t|
      ensures StepOf(t[j]) == steps[j]
    {
    }
  }

  /**
   * A request that is not silent ends, once processed, with a log entry at
   * info level on a 200 status and otherwise at critical or error level.
   */
  lemma RequestTraceLogsOutcome(silent: bool, critical: bool, beforeEntry: Record, sent: Event,
                                statusCode: int, afterEntry: Record)
    requires sent.Send? && !silent
    ensures var t := RequestTrace(silent, critical, beforeEntry, sent, statusCode, true, afterEntry);
      && t[1] == LogBefore(InfoLog, beforeEntry)
      && t[|t| - 1].LogAfter?
      && (t[|t| - 1].level == InfoLog <==> statusCode == 200)
      && (t[|t| - 1].level == CriticalLog <==> statusCode != 200 && critical)
      && (t[|t| - 1].level == ErrorLog <==> statusCode != 200 && !critical)
      && t[|t| - 1].entry == afterEntry
  {
  }

  /** A silent request logs nothing, whatever its outcome. */
  lemma SilentRequestLogsNothing(critical: bool, beforeEntry: Record, sent: Event,
                                 statusCode: int, processed: bool, afterEntry: Record)
    requires sent.Send?
    ensures forall e :: e in RequestTrace(true, critical, beforeEntry, sent, statusCode, processed, afterEntry) ==>
      !e.LogBefore? && !e.LogAfter?
  {
  }

  /** The log call `_log_before` makes: none when silent, else info. */
  function BeforeLevel(silent: bool): (r: Option<LogLevel>)
    ensures r.None? <==> silent
    ensures r.Some? ==> r.value == InfoLog
  {
    if silent then None else Some(InfoLog)
  }

  /**
   * The log call `_log_after` makes: none when silent; info on success;
   * on failure critical for a critical request, else error.
   */
  function AfterLevel(silent: bool, successful: bool, critical: bool): (r: Option<LogLevel>)
    ensures r.None? <==> silent
    ensures r == Some(InfoLog) <==> !silent && successful
    ensures r == Some(CriticalLog) <==> !silent && !successful && critical
    ensures r == Some(ErrorLog) <==> !silent && !successful && !critical
  {
    if silent then None
    else if successful then Some(InfoLog)
    else if critical then Some(CriticalLog)
    else Some(ErrorLog)
  }

  /** The `requests` library treats a response as true exactly when its status is not an error (4xx, 5xx). */
  predicate ResponseTruthy(response: Response) {
    !(400 <= response.statusCode < 600)
  }

  /** The request part of `_log_dict`. */
  function RequestEntry(uri: string, fullUrl: string, params: Record, data: Record, headers: Record, verb: string): Record {
    map[
      "URI" := Str(uri),
      "full URI" := Str(fullUrl),
      "params" := Dict(params),
      "request body" := Dict(data),
      "headers" := Dict(headers),
      "verb" := Str(verb)]
  }

  function OptionBool(b: Option<bool>): Value {
    if b.Some? then Bool(b.value) else Null
  }

  function OptionValue(v: Option<Value>): Value {
    if v.Some? then v.value else Null
  }

  /**
   * The response part of `_log_dict`: status, success and data when
   * `withResponse`; on a failed request, the body and its JSON or
   * "Invalid JSON".
   */
  function AddResponseEntries(desc: Record, withResponse: bool, response: Option<Response>,
                              successful: Option<bool>, data: Option<Value>): Record
  {
    var desc1 :=
      if withResponse && response.Some? then
        desc["HTTP status code" := Int(response.value.statusCode)]
            ["successful" := OptionBool(successful)]
            ["response data" := OptionValue(data)]
      else desc;
    if successful == Some(false) && response.Some? then
      desc1["response body" := Str(response.value.text)]
           ["response JSON" := if response.value.json.Some? then response.value.json.value else Str("Invalid JSON")]
    else desc1
  }

  /**
   * `_log_dict` as written: the response entries hang on `if self.response:`,
   * the truth value of the response object, which is false for a 4xx or 5xx
   * status, so a failed request's log lacks its status code.
   */
  function LogEntryAsWritten(desc: Record, response: Option<Response>, successful: Option<bool>, data: Option<Value>): (r: Record)
    ensures "HTTP status code" in r <==> "HTTP status code" in desc || (response.Some? && ResponseTruthy(response.value))
  {
    AddResponseEntries(desc, response.Some? && ResponseTruthy(response.value), response, successful, data)
  }

  /**
   * `_log_dict` as intended: the request description, plus status, success
   * and data once a response exists, plus the body and its JSON (or
   * "Invalid JSON") for a failed request.
   */
  function LogEntry(desc: Record, response: Option<Response>, successful: Option<bool>, data: Option<Value>): Record
  {
    AddResponseEntries(desc, true, response, successful, data)
  }

  /**
   * The intended log entry keeps the request description apart from the
   * response keys and, once a response exists, records its status, success
   * and data, and for a failed request its body and its JSON.
   */
  lemma LogEntryContents(desc: Record, response: Option<Response>, successful: Option<bool>, data: Option<Value>)
    ensures var r := LogEntry(desc, response, successful, data);
      && r.Keys <= desc.Keys + ResponseKeys
      && (forall k :: k in desc && k !in ResponseKeys ==> k in r && r[k] == desc[k])
      && (response.None? ==> r == desc)
      && (response.Some? ==>
        && "HTTP status code" in r && r["HTTP status code"] == Int(response.value.statusCode)
        && "successful" in r && r["successful"] == OptionBool(successful)
        && "response data" in r && r["response data"] == OptionValue(data))
      && (response.Some? && successful == Some(false) ==>
        && "response body" in r && r["response body"] == Str(response.value.text)
        && "response JSON" in r
        && (response.value.json.Some? ==> r["response JSON"] == response.value.json.value)
        && (response.value.json.None? ==> r["response JSON"] == Str("Invalid JSON")))
      && (successful != Some(false) ==>
        forall k :: k in r && k in {"response body", "response JSON"} ==> k in desc && r[k] == desc[k])
  {
  }

  /** The keys `_log_dict` adds for the response. */
  const ResponseKeys: set<string> := {"HTTP status code", "successful", "response data", "response body", "response JSON"}

  /** A failed 404 response: the written log entry drops the status code, the intended one keeps it. */
  lemma LogEntryDropsFailedStatus()
    ensures var response := Response(404, "Not Found", None);
      && "HTTP status code" !in LogEntryAsWritten(map[], Some(response), Some(false), Some(Dict(map[])))
      && LogEntry(map[], Some(response), Some(false), Some(Dict(map[])))["HTTP status code"] == Int(404)
  {
  }

  /** On a response that is not an error status, both log entries agree. */
  lemma LogEntryAgreesOnOkStatus(desc: Record, response: Response, successful: Option<bool>, data: Option<Value>)
    requires ResponseTruthy(response)
    ensures LogEntryAsWritten(desc, Some(response), successful, data) == LogEntry(desc, Some(response), successful, data)
  {
  }

  /** `__repr__`: `<ClassName description at uri>`. */
  function ReprOf(className: string, description: string, uri: string): (r: string)
    ensures |r| == |className| + |description| + |uri| + 7
    ensures r[..|className| + 2] == "<" + className + " "
    ensures r[|r| - |uri| - 5..] == " at " + uri + ">"
  {
    "<" + className + " " + description + " at " + uri + ">"
  }

  /** The description and the uri are recovered from the representation. */
  lemma ReprRecovers(className: string, description: string, uri: string)
    ensures var r := ReprOf(className, description, uri);
      && r[|className| + 2..|r| - |uri| - 5] == description
      && r[|r| - |uri| - 1..|r| - 1] == uri
  {
    var r := ReprOf(className, description, uri);
    assert r == ("<" + className + " ") + description + (" at " + uri + ">");
  }

  /**
   * `RestRequest`: one outbound call. The class attributes of the subclass
   * come in as `cls`; `fields` is the list the QS request subclass keeps.
   */
  class RestRequest {
    const cls: RequestClass
    const description: string
    const uri: string

    var params: Record
    var requestData: Record
    var headers: Record
    var silent: bool
    var critical: bool
    var verb: string
    var fields: seq<Value>
    var apiKey: Option<Value>

    var response: Option<Response>
    var data: Option<Value>
    var successful: Option<bool>

    /** The hooks, rate-limiter calls and log calls made so far. */
    var events: seq<Event>

    /** Success and data are only ever set once a response exists. */
    ghost predicate Valid()
      reads this`response, this`successful, this`data
    {
      (successful.Some? || data.Some?) ==> response.Some?
    }

    /**
     * `__init__`: verb GET, not critical, empty params, headers and body, no
     * response yet; silent only when the `silent` keyword is exactly True.
     */
    constructor (cls: RequestClass, description: string, uri: string, kwargs: Record)
      ensures Valid()
      ensures this.cls == cls && this.description == description && this.uri == uri
      ensures verb == GET && !critical
      ensures params == map[] && requestData == map[] && headers == map[]
      ensures response.None? && data.None? && successful.None?
      ensures silent <==> Get(kwargs, "silent") == Bool(true)
      ensures fields == cls.initialFields && apiKey.None? && events == []
    {
      this.cls := cls;
      this.description := description;
      this.uri := uri;
      params := map[];
      requestData := map[];
      headers := map[];
      silent := Get(kwargs, "silent") == Bool(true);
      critical := false;
      verb := GET;
      fields := cls.initialFields;
      apiKey := None;
      response := None;
      data := None;
      successful := None;
      events := [];
    }

    /** `_full_url`: the base url followed by the uri. */
    function FullUrl(): (r: string)
      ensures |r| == |cls.baseUrl| + |uri|
      ensures r[..|cls.baseUrl|] == cls.baseUrl && r[|cls.baseUrl|..] == uri
    {
      cls.baseUrl + uri
    }

    /** `_full_params`: the base params merged with this request's params, which win. */
    function FullParams(): (r: Record)
      reads this`params
      ensures Util.MergedOver(r, cls.baseParams, params)
    {
      Util.MergeAllTwo(cls.baseParams, params);
      Util.MergeAll([cls.baseParams, params])
    }

    /** `_full_data`: the base body merged with this request's body, which wins. */
    function FullData(): (r: Record)
      reads this`requestData
      ensures Util.MergedOver(r, cls.baseRequestData, requestData)
    {
      Util.MergeAllTwo(cls.baseRequestData, requestData);
      Util.MergeAll([cls.baseRequestData, requestData])
    }

    /** `_full_headers`: the base headers merged with this request's headers, which win. */
    function FullHeaders(): (r: Record)
      reads this`headers
      ensures Util.MergedOver(r, cls.baseHeaders, headers)
    {
      Util.MergeAllTwo(cls.baseHeaders, headers);
      Util.MergeAll([cls.baseHeaders, headers])
    }

    /** The call `make_request` hands to the HTTP library: verb, full url, merged params, body and headers. */
    function SentCall(): (e: Event)
      reads this`params, this`requestData, this`headers, this`verb
      ensures e.Send? && e.url == FullUrl()
    {
      Send(verb, FullUrl(), FullParams(), FullData(), FullHeaders())
    }

    /** The request part of `_log_dict`. */
    function RequestDesc(): Record
      reads this`params, this`requestData, this`headers, this`verb
    {
      RequestEntry(uri, FullUrl(), FullParams(), FullData(), FullHeaders(), verb)
    }

    /**
     * `_log_dict` as intended (`LogEntry`): the description of the request
     * and, once made, of its response.
     */
    function LogDict(): Record
      reads this`params, this`requestData, this`headers, this`verb
      reads this`response, this`successful, this`data
    {
      LogEntry(RequestDesc(), response, successful, data)
    }

    /** `__repr__`. */
    function Repr(): string
    {
      ReprOf(cls.name, description, uri)
    }

    /** `set_api_key`: `params['apiKey']` becomes the key; other params stay. */
    method SetApiKey(key: Value)
      modifies this`params, this`apiKey
      ensures params == old(params)["apiKey" := key] && apiKey == Some(key)
    {
      apiKey := Some(key);
      params := params["apiKey" := key];
    }

    /**
     * `_process_response`: successful exactly when the status is 200; data is
     * the parsed body on success and `{}` on failure. A successful response
     * whose body is not JSON raises ValueError from `response.json()`,
     * leaving data unset.
     */
    method ProcessResponse() returns (r: Result<()>)
      requires response.Some?
      modifies this`successful, this`data
      ensures successful == Some(response.value.statusCode == 200)
      ensures r.Err? <==> response.value.statusCode == 200 && response.value.json.None?
      ensures r.Err? ==> r.error == ValueError && data == old(data)
      ensures r.Ok? && response.value.statusCode == 200 ==> data == response.value.json
      ensures response.value.statusCode != 200 ==> data == Some(Dict(map[]))
    {
      successful := Some(response.value.statusCode == 200);
      if response.value.statusCode == 200 {
        if response.value.json.None? {
          return Err(ValueError);
        }
        data := response.value.json;
      } else {
        data := Some(Dict(map[]));
      }
      r := Ok(());
    }

    /**
     * `make_request`: runs the steps of `ExpectedSteps` in order, sending the
     * merged url, params, body and headers, and returns the response data.
     */
    method MakeRequest(resp: Response) returns (r: Result<Value>)
      requires Valid()
      modifies this`response, this`successful, this`data, this`events
      ensures Valid()
      ensures response == Some(resp) && successful == Some(resp.statusCode == 200)
      ensures r.Err? <==> resp.statusCode == 200 && resp.json.None?
      ensures r.Err? ==> r.error == ValueError && data == old(data)
      ensures r.Ok? ==> data == Some(r.value)
      ensures r.Ok? && resp.statusCode == 200 ==> resp.json == Some(r.value)
      ensures resp.statusCode != 200 ==> r == Ok(Dict(map[]))
      ensures events == old(events) + RequestTrace(silent, critical, old(LogDict()), old(SentCall()),
        resp.statusCode, r.Ok?, LogEntry(old(RequestDesc()), response, successful, data))
    {
      var beforeEntry := LogDict();
      var desc := RequestDesc();
      var sent := SentCall();
      response := Some(resp);
      var processed := ProcessResponse();
      if processed.Err? {
        r := Err(ValueError);
      } else {
        r := Ok(data.value);
      }
      var afterEntry := LogEntry(desc, response, successful, data);
      events := events + RequestTrace(silent, critical, beforeEntry, sent, resp.statusCode, r.Ok?, afterEntry);
    }
  }
}
