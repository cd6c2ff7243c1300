/**
 * The QuickSchools API wrapper (`QSAPIWrapper` in modules/qs/qs_api.py):
 * how it reads its access key, builds requests for its server, finishes a
 * request (API key, `critical`, extra fields, key persistence), refills the
 * section enrollment cache, and invalidates cache entries after successful
 * deletes and posts.
 *
 * The network answer to a request is an input `Response`. The process-wide
 * API key store (`qs.api_keys`) is a map held by the wrapper, the request
 * classes of the three servers are given at construction, and the calls
 * made on the caches are recorded as `QsCache.CacheEvent`s.
 */
module QsApi {
  import opened Values
  import Util
  import RestFoundation
  import QsCache
  import QsAccessKey
  import QsEnrollment

  /** The request class used for each server (`qs.QSRequest`, `qs.QSBackupRequest`, `qs.QSLocalRequest`). */
  datatype ServerClasses = ServerClasses(live: RestFoundation.RequestClass, backup: RestFoundation.RequestClass,
                                         local: RestFoundation.RequestClass)

  /** The request class `_request` picks for a server; None where the lookup raises KeyError. */
  function ClassFor(classes: ServerClasses, server: string): (c: Option<RestFoundation.RequestClass>)
    ensures c.Some? <==> server == "live" || server == "backup" || server == "local"
    ensures server == "live" ==> c == Some(classes.live)
    ensures server == "backup" ==> c == Some(classes.backup)
    ensures server == "local" ==> c == Some(classes.local)
  {
    if server == "live" then Some(classes.live)
    else if server == "backup" then Some(classes.backup)
    else if server == "local" then Some(classes.local)
    else None
  }

  /** `qs.api_keys.get(path)`: the stored key, or None when nothing is stored there. */
  function StoredKey(store: map<seq<string>, Value>, path: seq<string>): Value {
    if path in store then store[path] else Null
  }

  /** The API key a new wrapper uses: the access key itself, or what the store holds for the school. */
  function InitialApiKey(accessKey: string, server: string, store: map<seq<string>, Value>): (key: Value)
    ensures QsAccessKey.ParseAccessKey(accessKey).isApiKey ==> key == Str(accessKey)
    ensures !QsAccessKey.ParseAccessKey(accessKey).isApiKey ==>
      key == StoredKey(store, QsAccessKey.KeyStorePath(server, accessKey))
  {
    var parsed := QsAccessKey.ParseAccessKey(accessKey);
    if parsed.isApiKey then Str(accessKey)
    else StoredKey(store, QsAccessKey.KeyStorePath(server, parsed.schoolcode))
  }

  /**
   * An API key that worked once is found again by school code: after a
   * successful request stored `schoolcode.secret`, a wrapper created with
   * the bare school code (which has no dot after its first character) on the
   * same server uses that key.
   */
  lemma ApiKeyRoundTrip(schoolcode: string, secret: string, server: string, store: map<seq<string>, Value>)
    requires schoolcode != "" && '\n' !in schoolcode && '.' !in secret
    requires forall i :: 1 <= i < |schoolcode| ==> schoolcode[i] != '.'
    ensures var key := schoolcode + "." + secret;
      var stored := store[QsAccessKey.KeyStorePath(server, QsAccessKey.ParseAccessKey(key).schoolcode) := Str(key)];
      InitialApiKey(schoolcode, server, stored) == Str(key)
  {
    QsAccessKey.ParseComposedKey(schoolcode, secret);
    QsAccessKey.ParseBareSchoolcode(schoolcode);
  }

  /** The keys of a dict, as the values a loop over the dict yields. */
  function KeyValues(entries: Record): (r: set<Value>)
    ensures forall v :: v in r <==> v.Str? && v.s in entries
  {
    set k | k in entries :: Str(k)
  }

  /**
   * What `request.fields += fields` appends for a truthy `fields`: a string
   * is wrapped in a one-element list first; a list adds its items, a set its
   * elements and a dict its keys, each once, in iteration order.
   */
  ghost predicate FieldsAdded(fields: Value, added: seq<Value>) {
    match fields
    case Str(_) => added == [fields]
    case List(items) => added == items
    case SetOf(elems) => Util.ListOfSet(added, elems)
    case Dict(entries) => Util.ListOfSet(added, KeyValues(entries))
    case _ => false
  }

  /** `fields` can be added to a request: absent or falsy, or a string, list, set or dict. */
  predicate FieldsUsable(kwargs: Record) {
    var fields := Get(kwargs, "fields");
    !Truthy(fields) || fields.Str? || fields.List? || fields.SetOf? || fields.Dict?
  }

  /** The fields `_make_request` adds to the request; an int, a bool or an object cannot be iterated. */
  method FieldItems(fields: Value) returns (r: Result<seq<Value>>)
    requires Truthy(fields)
    ensures r.Err? <==> fields.Int? || fields.Bool? || fields.Obj? || fields.Null?
    ensures r.Err? ==> r.error == TypeError
    ensures r.Ok? ==> FieldsAdded(fields, r.value)
  {
    match fields
    case Str(_) => r := Ok([fields]);
    case List(items) => r := Ok(items);
    case SetOf(elems) =>
      var items := Util.SetToList(elems);
      r := Ok(items);
    case Dict(entries) =>
      var keys := Util.SetToList(KeyValues(entries));
      r := Ok(keys);
    case _ => r := Err(TypeError);
  }

  /** The request completed: status 200 with a body that parses. Only then are keys stored and caches invalidated. */
  predicate Succeeded(resp: RestFoundation.Response) {
    resp.statusCode == 200 && resp.json.Some?
  }

  /** What `make_request` gives back for a response: the parsed body, the empty dict on failure, ValueError for an unparsable success. */
  function RequestOutcome(resp: RestFoundation.Response): (r: Result<Value>)
    ensures r.Err? <==> resp.statusCode == 200 && resp.json.None?
    ensures r.Err? ==> r.error == ValueError
    ensures Succeeded(resp) ==> r == Ok(resp.json.value)
    ensures resp.statusCode != 200 ==> r == Ok(Dict(map[]))
  {
    if resp.statusCode != 200 then Ok(Dict(map[]))
    else if resp.json.None? then Err(ValueError)
    else Ok(resp.json.value)
  }

  /**
   * The teacher id list `post_section` sends, as written: the conditional
   * reads the local `teacher_ids` before anything assigns it, so a list of
   * teacher ids raises UnboundLocalError; a single id is wrapped in a list.
   */
  function PostSectionTeacherIdsAsWritten(teacherId: Value): (r: Result<Value>)
    ensures r.Err? <==> teacherId.List?
    ensures r.Err? ==> r.error == NameError
    ensures r.Ok? ==> r.value == List([teacherId])
  {
    if teacherId.List? then Err(NameError) else Ok(List([teacherId]))
  }

  /** The teacher id list `post_section` means to send: a list as given, a single id wrapped in one. */
  function PostSectionTeacherIds(teacherId: Value): (r: Value)
    ensures r.List?
    ensures teacherId.List? ==> r.items == teacherId.items
    ensures !teacherId.List? ==> r.items == [teacherId]
  {
    if teacherId.List? then teacherId else List([teacherId])
  }

  /** Two teacher ids make the written `post_section` fail; the intended version sends both. */
  lemma PostSectionTeacherIdsFails()
    ensures PostSectionTeacherIdsAsWritten(List([Int(7), Int(8)])) == Err(NameError)
    ensures PostSectionTeacherIds(List([Int(7), Int(8)])) == List([Int(7), Int(8)])
  {
  }

  /** For a single teacher id the written and the intended versions agree. */
  lemma PostSectionTeacherIdsAgree(teacherId: Value)
    requires !teacherId.List?
    ensures PostSectionTeacherIdsAsWritten(teacherId) == Ok(PostSectionTeacherIds(teacherId))
  {
  }

  /**
   * `response['semesterId'] = response['smsAcademicSemesterId']` on the
   * created section: the semester id is copied under its short name; a dict
   * without it raises KeyError and any other value TypeError.
   */
  function WithSemesterId(response: Value): (r: Result<Value>)
    ensures r.Ok? <==> response.Dict? && "smsAcademicSemesterId" in response.entries
    ensures r.Err? ==> (r.error == KeyError <==> response.Dict?)
    ensures r.Err? ==> r.error == KeyError || r.error == TypeError
    ensures r.Ok? ==> r.value.Dict? && r.value.entries.Keys == response.entries.Keys + {"semesterId"}
    ensures r.Ok? ==> r.value.entries["semesterId"] == response.entries["smsAcademicSemesterId"]
    ensures r.Ok? ==> forall k :: k in response.entries && k != "semesterId" ==> r.value.entries[k] == response.entries[k]
  {
    if !response.Dict? then Err(TypeError)
    else if "smsAcademicSemesterId" !in response.entries then Err(KeyError)
    else Ok(Dict(response.entries["semesterId" := response.entries["smsAcademicSemesterId"]]))
  }

  /** `'{}/{}'.format(prefix, id)`-style URIs. */
  function UriFor(prefix: string, id: string): (u: string)
    ensures |u| == |prefix| + |id| && u[..|prefix|] == prefix && u[|prefix|..] == id
  {
    prefix + id
  }

  /**
   * What an endpoint sent: `request` carries its description, verb, uri and
   * body, its own params plus the wrapper's API key, and it went out with
   * the response `resp` exactly when the `fields` keyword was usable.
   */
  ghost predicate SentAs(request: RestFoundation.RestRequest, description: string, verb: string, uri: string,
                         params: Record, body: Record, apiKey: Value, kwargs: Record, resp: RestFoundation.Response)
    reads request
  {
    && request.description == description && request.verb == verb && request.uri == uri
    && request.params == params["apiKey" := apiKey] && request.requestData == body
    && request.response == (if FieldsUsable(kwargs) then Some(resp) else None)
  }

  class QsApiWrapper {
    const accessKey: string
    const server: string
    const classes: ServerClasses
    var schoolcode: string
    var apiKey: Value

    /** `qs.api_keys`: API keys by `['qs', server, schoolcode]`. */
    var keyStore: map<seq<string>, Value>

    /** The `add` and `invalidate` calls made on this wrapper's caches. */
    var cacheEvents: seq<QsCache.CacheEvent>

    /**
     * `__init__` followed by `_parse_access_key`: an access key shaped like
     * an API key gives the school code before its last usable dot and is
     * itself the API key; any other access key is the school code, and the
     * API key is looked up in the store.
     */
    constructor (accessKey: string, server: string, classes: ServerClasses, keyStore: map<seq<string>, Value>)
      ensures this.accessKey == accessKey && this.server == server && this.classes == classes
      ensures this.keyStore == keyStore && cacheEvents == []
      ensures schoolcode == QsAccessKey.ParseAccessKey(accessKey).schoolcode
      ensures apiKey == InitialApiKey(accessKey, server, keyStore)
    {
      this.accessKey := accessKey;
      this.server := server;
      this.classes := classes;
      this.keyStore := keyStore;
      cacheEvents := [];
      schoolcode := "";
      apiKey := Null;
      new;
      ParseAccessKey();
    }

    /** `_parse_access_key`: sets the school code and the API key from the access key. */
    method ParseAccessKey()
      modifies this`schoolcode, this`apiKey
      ensures schoolcode == QsAccessKey.ParseAccessKey(accessKey).schoolcode
      ensures apiKey == InitialApiKey(accessKey, server, keyStore)
    {
      var parsed := QsAccessKey.ParseAccessKey(accessKey);
      schoolcode := parsed.schoolcode;
      if parsed.isApiKey {
        apiKey := Str(accessKey);
      } else {
        apiKey := StoredKey(keyStore, KeyStorePath());
      }
    }

    /** `_api_key_store_key_path`. */
    function KeyStorePath(): (path: seq<string>)
      reads this`schoolcode
      ensures path == QsAccessKey.KeyStorePath(server, schoolcode)
    {
      ["qs", server, schoolcode]
    }

    /** `_request`: a fresh request of the server's class; KeyError for an unknown server. */
    method NewRequest(description: string, uri: string, kwargs: Record) returns (r: Result<RestFoundation.RestRequest>)
      ensures r.Err? <==> ClassFor(classes, server).None?
      ensures r.Err? ==> r.error == KeyError
      ensures r.Ok? ==> fresh(r.value) && r.value.Valid() && r.value.cls == ClassFor(classes, server).value
      ensures r.Ok? ==> r.value.description == description && r.value.uri == uri && r.value.verb == RestFoundation.GET
      ensures r.Ok? ==> r.value.params == map[] && r.value.requestData == map[] && !r.value.critical
      ensures r.Ok? ==> r.value.silent == (Get(kwargs, "silent") == Bool(true)) && r.value.response.None?
    {
      var cls := ClassFor(classes, server);
      if cls.None? {
        return Err(KeyError);
      }
      var request := new RestFoundation.RestRequest(cls.value, description, uri, kwargs);
      r := Ok(request);
    }

    /**
     * The first half of `_make_request`: the wrapper's API key goes into the
     * params, a truthy `critical` marks the request critical, and truthy
     * `fields` are appended to the request's fields (TypeError when they
     * cannot be iterated).
     */
    method PrepareRequest(request: RestFoundation.RestRequest, kwargs: Record) returns (r: Result<()>)
      modifies request`params, request`apiKey, request`critical, request`fields
      ensures r.Err? <==> !FieldsUsable(kwargs)
      ensures r.Err? ==> r.error == TypeError && request.fields == old(request.fields)
      ensures request.params == old(request.params)["apiKey" := apiKey] && request.apiKey == Some(apiKey)
      ensures request.critical == (old(request.critical) || Truthy(Get(kwargs, "critical")))
      ensures !Truthy(Get(kwargs, "fields")) ==> request.fields == old(request.fields)
      ensures Truthy(Get(kwargs, "fields")) && r.Ok? ==>
        |old(request.fields)| <= |request.fields| && request.fields[..|old(request.fields)|] == old(request.fields)
        && FieldsAdded(Get(kwargs, "fields"), request.fields[|old(request.fields)|..])
    {
      request.SetApiKey(apiKey);
      var critical := Get(kwargs, "critical");
      var fields := Get(kwargs, "fields");
      if Truthy(critical) {
        request.critical := true;
      }
      if Truthy(fields) {
        var added := FieldItems(fields);
        if added.Err? {
          return Err(added.error);
        }
        request.fields := request.fields + added.value;
        assert request.fields[|old(request.fields)|..] == added.value;
      }
      r := Ok(());
    }

    /**
     * The second half of `_make_request`: the request is made, and the
     * wrapper's API key is stored only when the request completed
     * successfully.
     */
    method SendAndStore(request: RestFoundation.RestRequest, resp: RestFoundation.Response) returns (r: Result<Value>)
      requires request.Valid()
      modifies this`keyStore, request`response, request`successful, request`data, request`events
      ensures r == RequestOutcome(resp)
      ensures request.response == Some(resp) && request.successful == Some(resp.statusCode == 200)
      ensures r.Ok? ==> request.data == Some(r.value)
      ensures r.Err? ==> request.data == old(request.data)
      ensures keyStore == if Succeeded(resp) then old(keyStore)[KeyStorePath() := apiKey] else old(keyStore)
    {
      r := request.MakeRequest(resp);
      if r.Ok? && request.successful == Some(true) {
        keyStore := keyStore[KeyStorePath() := apiKey];
      }
    }

    /**
     * `_make_request`: the request is prepared (API key, `critical`,
     * fields), then made, and its API key is stored only when it completed
     * successfully; fields that cannot be iterated raise TypeError before
     * anything is sent.
     */
    method MakeRequest(request: RestFoundation.RestRequest, kwargs: Record, resp: RestFoundation.Response)
      returns (r: Result<Value>)
      requires request.Valid()
      modifies this`keyStore, request`params, request`apiKey, request`critical, request`fields
      modifies request`response, request`successful, request`data, request`events
      ensures request.params == old(request.params)["apiKey" := apiKey] && request.apiKey == Some(apiKey)
      ensures request.critical == (old(request.critical) || Truthy(Get(kwargs, "critical")))
      ensures !Truthy(Get(kwargs, "fields")) ==> request.fields == old(request.fields)
      ensures Truthy(Get(kwargs, "fields")) && FieldsUsable(kwargs) ==>
        |old(request.fields)| <= |request.fields| && request.fields[..|old(request.fields)|] == old(request.fields)
        && FieldsAdded(Get(kwargs, "fields"), request.fields[|old(request.fields)|..])
      ensures !FieldsUsable(kwargs) ==> r == Err(TypeError) && keyStore == old(keyStore)
      ensures !FieldsUsable(kwargs) ==> request.fields == old(request.fields)
      ensures !FieldsUsable(kwargs) ==> request.response == old(request.response) && request.events == old(request.events)
      ensures !FieldsUsable(kwargs) ==> request.successful == old(request.successful) && request.data == old(request.data)
      ensures FieldsUsable(kwargs) ==> r == RequestOutcome(resp) && request.response == Some(resp)
      ensures FieldsUsable(kwargs) ==> request.successful == Some(resp.statusCode == 200)
      ensures FieldsUsable(kwargs) && r.Ok? ==> request.data == Some(r.value)
      ensures FieldsUsable(kwargs) && r.Err? ==> request.data == old(request.data)
      ensures keyStore == if r.Ok? && Succeeded(resp) then old(keyStore)[KeyStorePath() := apiKey] else old(keyStore)
    {
      r := Err(TypeError);
      var prepared := PrepareRequest(request, kwargs);
      if prepared.Err? {
        return;
      }
      r := SendAndStore(request, resp);
    }

    /**
     * `_update_section_enrollment_cache`: when the cache must be refilled,
     * the students and sections (inputs here) are turned into one
     * `{id, students}` record per section and added to the cache.
     */
    method UpdateSectionEnrollmentCache(cache: QsCache.CacheView, kwargs: Record, students: seq<Record>, sections: seq<Record>)
      returns (r: Result<()>)
      modifies this`cacheEvents
      ensures !QsCache.ShouldMakeRequest(cache, kwargs).makeRequest ==> r == Ok(()) && cacheEvents == old(cacheEvents)
      ensures QsCache.ShouldMakeRequest(cache, kwargs).makeRequest ==>
        (r.Ok? <==> QsEnrollment.SectionEnrollmentIndex(students, sections).Ok?)
      ensures r.Err? ==> cacheEvents == old(cacheEvents)
      ensures QsCache.ShouldMakeRequest(cache, kwargs).makeRequest && r.Err? ==>
        r.error == QsEnrollment.SectionEnrollmentIndex(students, sections).error
      ensures QsCache.ShouldMakeRequest(cache, kwargs).makeRequest && r.Ok? ==>
        exists records :: QsEnrollment.ListedAs(QsEnrollment.SectionEnrollmentIndex(students, sections).value, "students", records)
          && cacheEvents == old(cacheEvents) + [QsCache.Add(QsCache.SectionEnrollmentCache, List(DictsOf(records)))]
    {
      if !QsCache.ShouldMakeRequest(cache, kwargs).makeRequest {
        return Ok(());
      }
      var records := QsEnrollment.SectionEnrollmentRecords(students, sections);
      if records.Err? {
        return Err(records.error);
      }
      cacheEvents := cacheEvents + [QsCache.Add(QsCache.SectionEnrollmentCache, List(DictsOf(records.value)))];
      r := Ok(());
    }

    /**
     * `delete_section` (without `delete_enrollment`): the decorator cleans the
     * id, a DELETE request goes to `/sections/<id>`, and the section's cache
     * entry is invalidated only when the request succeeded.
     */
    method DeleteSection(sectionId: Value, kwargs: Record, resp: RestFoundation.Response)
      returns (r: Result<Value>, ghost sent: Option<RestFoundation.RestRequest>)
      modifies this`keyStore, this`cacheEvents
      ensures Util.CleanId(sectionId).Err? ==>
        r == Err(Util.CleanId(sectionId).error) && cacheEvents == old(cacheEvents) && keyStore == old(keyStore)
      ensures Util.CleanId(sectionId).Ok? && ClassFor(classes, server).None? ==>
        r == Err(KeyError) && cacheEvents == old(cacheEvents) && keyStore == old(keyStore)
      ensures Util.CleanId(sectionId).Ok? && ClassFor(classes, server).Some? && !FieldsUsable(kwargs) ==>
        r == Err(TypeError)
      ensures Util.CleanId(sectionId).Ok? && ClassFor(classes, server).Some? && FieldsUsable(kwargs) ==>
        r == RequestOutcome(resp)
      ensures cacheEvents == old(cacheEvents) + (if r.Ok? && Succeeded(resp)
        then [QsCache.Invalidate(QsCache.SectionCache, Some(Util.CleanId(sectionId).value))] else [])
      ensures keyStore == if r.Ok? && Succeeded(resp) then old(keyStore)[KeyStorePath() := apiKey] else old(keyStore)
      ensures sent.Some? <==> Util.CleanId(sectionId).Ok? && ClassFor(classes, server).Some?
      ensures sent.Some? ==> fresh(sent.value) && SentAs(sent.value, "DELETE section by id", RestFoundation.DELETE,
        UriFor("/sections/", Util.CleanId(sectionId).value), map[], map[], apiKey, kwargs, resp)
    {
      var id := Util.CleanId(sectionId);
      if id.Err? {
        return Err(id.error), None;
      }
      var made := NewRequest("DELETE section by id", UriFor("/sections/", id.value), kwargs);
      if made.Err? {
        return Err(made.error), None;
      }
      var request := made.value;
      sent := Some(request);
      request.verb := RestFoundation.DELETE;
      r := MakeRequest(request, kwargs, resp);
      if r.Ok? && request.successful == Some(true) {
        cacheEvents := cacheEvents + [QsCache.Invalidate(QsCache.SectionCache, Some(id.value))];
      }
    }

    /**
     * `delete_section_enrollments`: after the decorator cleans the section
     * id, the student ids must be a list (TypeError) and not empty
     * (ValueError); a DELETE request goes to `/sectionenrollments/<id>`, and
     * the section's enrollment cache entry is invalidated only when the
     * request succeeded.
     */
    method DeleteSectionEnrollments(sectionId: Value, studentIds: Value, kwargs: Record, resp: RestFoundation.Response)
      returns (r: Result<Value>, ghost sent: Option<RestFoundation.RestRequest>)
      modifies this`keyStore, this`cacheEvents
      ensures Util.CleanId(sectionId).Err? ==> r == Err(Util.CleanId(sectionId).error)
      ensures Util.CleanId(sectionId).Ok? && !studentIds.List? ==> r == Err(TypeError)
      ensures Util.CleanId(sectionId).Ok? && studentIds == List([]) ==> r == Err(ValueError)
      ensures Util.CleanId(sectionId).Err? || !studentIds.List? || studentIds == List([]) ==>
        cacheEvents == old(cacheEvents) && keyStore == old(keyStore)
      ensures Util.CleanId(sectionId).Ok? && studentIds.List? && studentIds != List([]) ==>
        r == if ClassFor(classes, server).None? then Err(KeyError)
             else if !FieldsUsable(kwargs) then Err(TypeError)
             else RequestOutcome(resp)
      ensures cacheEvents == old(cacheEvents) + (if r.Ok? && Succeeded(resp)
        then [QsCache.Invalidate(QsCache.SectionEnrollmentCache, Some(Util.CleanId(sectionId).value))] else [])
      ensures keyStore == if r.Ok? && Succeeded(resp) then old(keyStore)[KeyStorePath() := apiKey] else old(keyStore)
      ensures sent.Some? <==>
        Util.CleanId(sectionId).Ok? && studentIds.List? && studentIds != List([]) && ClassFor(classes, server).Some?
      ensures sent.Some? ==> fresh(sent.value) && SentAs(sent.value, "DELETE section enrollments", RestFoundation.DELETE,
        UriFor("/sectionenrollments/", Util.CleanId(sectionId).value), map[], map["studentIds" := studentIds],
        apiKey, kwargs, resp)
    {
      var id := Util.CleanId(sectionId);
      if id.Err? {
        return Err(id.error), None;
      }
      if !studentIds.List? {
        return Err(TypeError), None;
      }
      if |studentIds.items| == 0 {
        return Err(ValueError), None;
      }
      var made := NewRequest("DELETE section enrollments", UriFor("/sectionenrollments/", id.value), kwargs);
      if made.Err? {
        return Err(made.error), None;
      }
      var request := made.value;
      sent := Some(request);
      request.verb := RestFoundation.DELETE;
      request.requestData := map["studentIds" := studentIds];
      r := MakeRequest(request, kwargs, resp);
      if r.Ok? && request.successful == Some(true) {
        cacheEvents := cacheEvents + [QsCache.Invalidate(QsCache.SectionEnrollmentCache, Some(id.value))];
      }
    }

    /**
     * `post_grades`: the assignment id is cleaned, a POST request goes to
     * `/grades`, and the whole grade cache is invalidated only when the
     * request succeeded.
     */
    method PostGrades(sectionId: Value, assignmentId: Value, grades: Value, kwargs: Record, resp: RestFoundation.Response)
      returns (r: Result<Value>, ghost sent: Option<RestFoundation.RestRequest>)
      modifies this`keyStore, this`cacheEvents
      ensures Util.CleanId(assignmentId).Err? ==>
        r == Err(Util.CleanId(assignmentId).error) && cacheEvents == old(cacheEvents) && keyStore == old(keyStore)
      ensures Util.CleanId(assignmentId).Ok? ==>
        r == if ClassFor(classes, server).None? then Err(KeyError)
             else if !FieldsUsable(kwargs) then Err(TypeError)
             else RequestOutcome(resp)
      ensures cacheEvents == old(cacheEvents) + (if r.Ok? && Succeeded(resp)
        then [QsCache.Invalidate(QsCache.GradeCache, None)] else [])
      ensures keyStore == if r.Ok? && Succeeded(resp) then old(keyStore)[KeyStorePath() := apiKey] else old(keyStore)
      ensures sent.Some? <==> Util.CleanId(assignmentId).Ok? && ClassFor(classes, server).Some?
      ensures sent.Some? ==> fresh(sent.value) && SentAs(sent.value, "POST grades for assignment", RestFoundation.POST,
        "/grades", map[], map["sectionId" := sectionId, "assignmentId" := Str(Util.CleanId(assignmentId).value),
                              "grades" := grades], apiKey, kwargs, resp)
    {
      var id := Util.CleanId(assignmentId);
      if id.Err? {
        return Err(id.error), None;
      }
      var made := NewRequest("POST grades for assignment", "/grades", kwargs);
      if made.Err? {
        return Err(made.error), None;
      }
      var request := made.value;
      sent := Some(request);
      request.verb := RestFoundation.POST;
      request.requestData := map["sectionId" := sectionId, "assignmentId" := Str(id.value), "grades" := grades];
      r := MakeRequest(request, kwargs, resp);
      if r.Ok? && request.successful == Some(true) {
        cacheEvents := cacheEvents + [QsCache.Invalidate(QsCache.GradeCache, None)];
      }
    }

    /**
     * `post_section`: a POST to `/sections` asking for the new section's
     * semester id, with the section's class, name, code, credit hours and
     * teacher ids as the body. On success the semester id is copied to
     * `semesterId` and the section is added to the section cache.
     */
    method PostSection(sectionName: Value, sectionCode: Value, classId: Value, teacherId: Value, creditHours: Value,
                       kwargs: Record, resp: RestFoundation.Response)
      returns (r: Result<Value>, ghost sent: Option<RestFoundation.RestRequest>)
      modifies this`keyStore, this`cacheEvents
      ensures ClassFor(classes, server).None? ==> r == Err(KeyError)
      ensures ClassFor(classes, server).Some? && !FieldsUsable(kwargs) ==> r == Err(TypeError)
      ensures ClassFor(classes, server).Some? && FieldsUsable(kwargs) ==>
        r == if Succeeded(resp) then WithSemesterId(resp.json.value) else RequestOutcome(resp)
      ensures cacheEvents == old(cacheEvents) + (if r.Ok? && Succeeded(resp)
        then [QsCache.Add(QsCache.SectionCache, r.value)] else [])
      ensures keyStore == if ClassFor(classes, server).Some? && FieldsUsable(kwargs) && Succeeded(resp)
        then old(keyStore)[KeyStorePath() := apiKey] else old(keyStore)
      ensures sent.Some? <==> ClassFor(classes, server).Some?
      ensures sent.Some? ==> fresh(sent.value) && SentAs(sent.value, "POST new section", RestFoundation.POST,
        "/sections", map["fields" := Str("smsAcademicSemesterId")],
        map["classId" := classId, "sectionName" := sectionName, "sectionCode" := sectionCode,
            "creditHours" := creditHours, "teacherIds" := PostSectionTeacherIds(teacherId)],
        apiKey, kwargs, resp)
    {
      var made := NewRequest("POST new section", "/sections", kwargs);
      if made.Err? {
        return Err(made.error), None;
      }
      var request := made.value;
      sent := Some(request);
      request.verb := RestFoundation.POST;
      request.params := map["fields" := Str("smsAcademicSemesterId")];
      request.requestData := map[
        "classId" := classId,
        "sectionName" := sectionName,
        "sectionCode" := sectionCode,
        "creditHours" := creditHours,
        "teacherIds" := PostSectionTeacherIds(teacherId)];
      r := MakeRequest(request, kwargs, resp);
      if r.Ok? && request.successful == Some(true) {
        r := WithSemesterId(r.value);
        if r.Ok? {
          cacheEvents := cacheEvents + [QsCache.Add(QsCache.SectionCache, r.value)];
        }
      }
    }
  }

  /** Records as dict values. */
  function DictsOf(records: seq<Record>): (r: seq<Value>)
    ensures |r| == |records| && forall j :: 0 <= j < |records| ==> r[j] == Dict(records[j])
  {
    seq(|records|, j requires 0 <= j < |records| => Dict(records[j]))
  }
}
