/**
 * The cache-bypass rule of the QS API wrapper (`_should_make_request` in
 * modules/qs/qs_api.py) and the calls the wrapper makes on its caches.
 *
 * The caches themselves (`qs.ListWithIDCache`) are not part of this model:
 * a cache is seen only through the answers it gives to `has_fields` and
 * `get`, and the wrapper's `add` and `invalidate` calls are recorded as
 * `CacheEvent`s.
 */
module QsCache {
  import opened Values

  /** The caches of one wrapper. */
  datatype CacheName =
    | TeacherCache | SemesterCache | StudentCache | ParentCache | SectionCache
    | SectionEnrollmentCache | AssignmentCache | GradeCache | ReportCycleCache
    | ReportCardCache | TranscriptCache | ClassCache

  /**
   * A call the wrapper makes on a cache: `add(arg)` with the value passed (a
   * list of records or one record), or `invalidate(id)`, where `id` None
   * means "invalidate everything".
   */
  datatype CacheEvent =
    | Add(cache: CacheName, arg: Value)
    | Invalidate(cache: CacheName, id: Option<string>)

  /** The answers a cache gives: `has_fields(fields)` and `get(**kwargs)`. */
  datatype CacheView = CacheView(hasFields: Value -> Value, get: Record -> Value)

  /** A question `_should_make_request` asks of the cache. */
  datatype CacheQuery = HasFieldsQuery(fields: Value) | GetQuery(kwargs: Record)

  /** Whether to make a request, and the cache questions asked on the way, in order. */
  datatype Decision = Decision(makeRequest: bool, asked: seq<CacheQuery>)

  /** `use_cache is False`. */
  predicate BypassesCache(kwargs: Record) {
    Get(kwargs, "use_cache") == Bool(false)
  }

  /** Fields were requested and the cache says, exactly False, that it lacks them. */
  predicate LacksFields(cache: CacheView, kwargs: Record) {
    Truthy(Get(kwargs, "fields")) && cache.hasFields(Get(kwargs, "fields")) == Bool(false)
  }

  /**
   * `_should_make_request(cache, **kwargs)`: request when the caller bypasses
   * the cache, else when requested fields are missing from it, else when the
   * cache has nothing (None) for these arguments.
   */
  function ShouldMakeRequest(cache: CacheView, kwargs: Record): (d: Decision)
    ensures d.makeRequest <==>
      BypassesCache(kwargs) || LacksFields(cache, kwargs) || cache.get(kwargs) == Null
    ensures BypassesCache(kwargs) ==> d.asked == []
    ensures !BypassesCache(kwargs) ==>
      (GetQuery(kwargs) in d.asked <==> !LacksFields(cache, kwargs))
    ensures |d.asked| <= 2
    ensures forall j :: 0 <= j < |d.asked| && d.asked[j].HasFieldsQuery? ==>
      j == 0 && d.asked[j].fields == Get(kwargs, "fields") && Truthy(d.asked[j].fields)
  {
    var fields := Get(kwargs, "fields");
    if Get(kwargs, "use_cache") == Bool(false) then
      Decision(true, [])
    else
      var fieldQueries := if Truthy(fields) then [HasFieldsQuery(fields)] else [];
      if Truthy(fields) && cache.hasFields(fields) == Bool(false) then
        Decision(true, fieldQueries)
      else
        Decision(cache.get(kwargs) == Null, fieldQueries + [GetQuery(kwargs)])
  }

  /**
   * Only the exact value False bypasses the cache: a falsy `use_cache` such as
   * None or 0 does not, so a filled cache with its fields still answers.
   */
  lemma OnlyFalseBypasses(cache: CacheView, kwargs: Record, useCache: Value)
    requires useCache != Bool(false) && !Truthy(useCache)
    requires cache.get(kwargs["use_cache" := useCache]) != Null
    requires !Truthy(Get(kwargs, "fields"))
    ensures ShouldMakeRequest(cache, kwargs["use_cache" := Bool(false)]).makeRequest
    ensures !ShouldMakeRequest(cache, kwargs["use_cache" := useCache]).makeRequest
  {
  }

  /**
   * The answers of a cache that the decision did not ask about do not matter:
   * two caches agreeing on the questions asked give the same decision.
   */
  lemma DecisionDependsOnAskedOnly(c1: CacheView, c2: CacheView, kwargs: Record)
    requires forall q :: q in ShouldMakeRequest(c1, kwargs).asked ==>
      (q.HasFieldsQuery? ==> c1.hasFields(q.fields) == c2.hasFields(q.fields)) &&
      (q.GetQuery? ==> c1.get(q.kwargs) == c2.get(q.kwargs))
    ensures ShouldMakeRequest(c2, kwargs) == ShouldMakeRequest(c1, kwargs)
  {
    var fields := Get(kwargs, "fields");
    if !BypassesCache(kwargs) && Truthy(fields) {
      assert HasFieldsQuery(fields) in ShouldMakeRequest(c1, kwargs).asked;
    }
  }
}
