# QuickSchools client core, modelled in Dafny

This project models the deterministic core of `qs`, a Python 2 client for the
QuickSchools REST API:

- the dictionary and identifier helpers of `modules/qs/util.py`: `merge`,
  `dict_list_to_dict` / `dict_to_dict_list`, `is_valid_id` / `clean_id`,
  the `clean_arg` decorator, `make_id`, `sets_to_lists`, `digits`,
  `valid_us_phone` and `format_phone`;
- the generic request object `RestRequest` of `modules/qs/rest_foundation.py`:
  how the URL, params, body and headers are composed, how a response is
  classified, what is logged and at what severity, the order of the steps of
  `make_request`, and `__repr__`;
- the decision and reshaping logic of the `QSAPIWrapper` in
  `modules/qs/qs_api.py`:
  - the cache-bypass rule;
  - reading the access key and the key-store path;
  - finishing a request and persisting its API key;
  - building and inverting section enrollments;
  - matching a section;
  - the validation and cache invalidation of the delete and post calls.

Python values are one datatype, `Values.Value` (None, bool, int, str, list,
set, dict, other objects). A dict-shaped resource is a `Record`
(`map<string, Value>`). Python exceptions become `Result` values carrying
`ValueError`, `TypeError`, `KeyError`, `IndexError`, `LookupError` or
`NameError`. Dict and set iteration order is arbitrary in Python 2, so the
methods that iterate a dict pick an arbitrary next key. Their contracts are stated
independently of the order: multisets, "listed once each", and so on.

Objects that the source updates in place are classes:

- `RestFoundation.RestRequest`;
- `QsApi.QsApiWrapper`;
- `Util.PyDict`, a dict that `sets_to_lists` and `match_section` rewrite in
  place.

The outside world is an input or a record:

- the network answer is a `Response` (status code, text, parsed JSON or
  None when the body does not parse);
- the rate limiter, the hooks and the logger are an `Event` trace on the
  request;
- the wrapper's cache calls are `QsCache.CacheEvent`s;
- a cache is seen only through its `has_fields` / `get` answers;
- the process-wide API key store is a map held by the wrapper.

Modules:

| file | module | models |
|---|---|---|
| values.dfy | `Values` | Python values, truthiness, `d.get` / `d[k]`, `str(int)` |
| util.dfy | `Util` | modules/qs/util.py |
| rest_foundation.dfy | `RestFoundation` | modules/qs/rest_foundation.py |
| qs_cache.dfy | `QsCache` | `_should_make_request` and the cache calls |
| qs_access_key.dfy | `QsAccessKey` | `_parse_access_key`, `_api_key_store_key_path` |
| qs_enrollment.dfy | `QsEnrollment` | `_enrollment_dict`, `_update_section_enrollment_cache`, `get_student_enrollments` |
| qs_sections.dfy | `QsSections` | `match_section` |
| qs_api.dfy | `QsApi` | `_request`, `_make_request`, `__init__`, `post_section`, `delete_section`, `delete_section_enrollments`, `post_grades` |

A status-200 response whose body does not parse is not turned into a
failure: `_get_data` (modules/qs/rest_foundation.py:133-135) calls
`response.json()` on every success, so the ValueError propagates out of `make_request`, and
the after-hook and the after-log never run. The model follows the code:
`RestFoundation.RestRequest.MakeRequest` returns `Err(ValueError)` in that
case. The wrapper then neither stores the API key nor invalidates a cache.

## Model

| member | source | states |
|---|---|---|
| Util.Merge | modules/qs/util.py:52-62 | the pair-accumulating loop computes exactly the right-biased union `MergeAll` of all arguments |
| Util.MergeAllKeys | modules/qs/util.py:52-62 | a key is in the merge iff some argument has it |
| Util.MergeAllValue | modules/qs/util.py:52-62 | a key's merged value comes from the right-most argument that has it |
| Util.MergeAllTwo | modules/qs/util.py:52-62 | merging two dicts: the overriding keys win, and base keys that are not overridden survive |
| Util.DictListToDict | modules/qs/util.py:35-39 | succeeds iff every record has the id key with a hashable value; otherwise the first record that fails decides: KeyError without the key, TypeError for a list, set or dict id; on success the keys are exactly the ids, each entry's record carries its own key as id, and each entry is one of the input records |
| Util.DictListToDictLaterWins | modules/qs/util.py:35-39 | when ids repeat, the last record with an id is the one kept |
| Util.DictToDictListLength | modules/qs/util.py:42-44 | one element per key |
| Util.DictToDictListValues | modules/qs/util.py:42-44 | the elements are exactly the dict's values |
| Util.DictListRoundTrip | modules/qs/util.py:35-44 | for unique ids, flattening to a dict and expanding back gives a permutation (same multiset) of the original list |
| Util.IsValidId | modules/qs/util.py:82-100 | True exactly for a str id or an int in [-2^63, 2^63) (a `long` is not an id); ValueError for a falsy non-zero value, TypeError for any other value; with a truthy `check_only`, False instead of either error |
| Util.LongIsNoId | modules/qs/util.py:82-100 | 2^63 is a `long`, so `is_valid_id` and `make_id` raise TypeError for it, while 2^63-1 is accepted; -2^63-1 is not a builtin |
| Util.CleanIdAsWritten | modules/qs/util.py:70-79 | as written: with a truthy `func_name` an invalid id gives None instead of an error |
| Util.CleanIdAsWrittenSwallowsError | modules/qs/util.py:70-79 | `clean_id(None, 'get_student')` as written returns None; the intended version raises ValueError |
| Util.CleanId | modules/qs/util.py:70-79 | succeeds iff the id is valid, and then gives its non-empty `str()` form; otherwise it fails with the error `is_valid_id` raises |
| Util.CleanIdAgrees | modules/qs/util.py:70-100 | without a `func_name`, the code as written and the corrected version agree on every input |
| Util.CleanIdIdempotent | modules/qs/util.py:70-79 | cleaning a cleaned id changes nothing |
| Util.CleanArg | modules/qs/util.py:156-165 | the first argument, or the second when the first is not a builtin (a `self`), is replaced by its cleaned id and the other arguments are kept; a missing argument raises IndexError; a present argument succeeds iff it is a valid id, and otherwise raises the error `clean_id` raises |
| Util.CleanArgIdempotent | modules/qs/util.py:156-165 | applying the decorator's rewrite twice equals applying it once |
| Util.MakeId | modules/qs/util.py:109-118 | TypeError iff some argument is not a str or an int (a `long` counts as neither); otherwise the arguments' string forms joined by ':' in order |
| Util.JoinShape | modules/qs/util.py:109-118 | a join is as long as its parts plus one separator between each two, and starts with the first part |
| Util.MakeIdSplits | modules/qs/util.py:109-118 | splitting the id at ':' gives back the arguments' string forms, in order, when no string argument holds a ':' |
| Util.Digits | modules/qs/util.py:142-144 | the result holds only digits and is no longer than the input |
| Util.DigitsKeepsEveryDigit | modules/qs/util.py:142-144 | every digit occurs in the result as often as in the input |
| Util.DigitsAppend | modules/qs/util.py:142-144 | digits distribute over concatenation, so input order is kept |
| Util.DigitsOfDigits | modules/qs/util.py:142-144 | a string of digits is its own digits |
| Util.ValidUsPhoneIffTenDigits | modules/qs/util.py:137-139 | a phone number is valid iff it has exactly ten digits |
| Util.FormatPhone | modules/qs/util.py:131-134 | an invalid phone number is returned unchanged; a valid one becomes `(ddd) ddd-dddd` built from its ten digits |
| Util.FormatPhoneKeepsDigits | modules/qs/util.py:131-139 | formatting keeps the digits, and the result is still a valid phone number |
| Util.FormatPhoneIdempotent | modules/qs/util.py:131-139 | formatting twice equals formatting once |
| Util.SetToList | modules/qs/util.py:126-128 | `list(s)` holds every element of the set exactly once |
| Util.SetsToLists | modules/qs/util.py:121-128 | every dict in the list keeps its keys; each set value becomes a list of exactly its elements and other values stay, also when a dict occurs twice |
| RestFoundation.ExpectedStepsOrder | modules/qs/rest_foundation.py:97-112 | the before-hook is first and, unless silent, the log-before second; then register-request, send, register-response and process-response; a completed request then has the after-hook and, unless silent, ends with the log-after; the length is fixed by silence and completion |
| RestFoundation.SilentLogsNothing | modules/qs/rest_foundation.py:140-146 | a silent request has no log step |
| RestFoundation.RequestTraceSteps | modules/qs/rest_foundation.py:97-112 | the events a request records follow exactly the expected step order |
| RestFoundation.RequestTraceLogsOutcome | modules/qs/rest_foundation.py:140-155 | the log-before is at info; the log-after carries the final log dict and is info iff the status is 200, critical iff it is not 200 and the request is critical, error otherwise |
| RestFoundation.SilentRequestLogsNothing | modules/qs/rest_foundation.py:140-146 | a silent request records no log event at all |
| RestFoundation.BeforeLevel | modules/qs/rest_foundation.py:140-142 | no log iff silent, otherwise info |
| RestFoundation.AfterLevel | modules/qs/rest_foundation.py:144-155 | no log iff silent; otherwise info iff successful, critical iff failed and critical, error iff failed and not critical |
| RestFoundation.LogEntryAsWritten | modules/qs/rest_foundation.py:157-180 | as written: the status key is present only for a response whose truthiness holds (status outside 400-599) |
| RestFoundation.LogEntryContents | modules/qs/rest_foundation.py:157-180 | the request description is kept; once there is a response, its status, `successful` and the data are added; a failed response also adds its body and its JSON, or "Invalid JSON" when the body does not parse |
| RestFoundation.LogEntryDropsFailedStatus | modules/qs/rest_foundation.py:170-173 | for a 404 response the code as written logs no status code, and the intended log does |
| RestFoundation.LogEntryAgreesOnOkStatus | modules/qs/rest_foundation.py:157-180 | for statuses outside 400-599 the code as written and the corrected version give the same log dict |
| RestFoundation.ReprOf | modules/qs/rest_foundation.py:194-198 | `<ClassName description at uri>`: its length, its prefix and its suffix |
| RestFoundation.ReprRecovers | modules/qs/rest_foundation.py:194-198 | the class name, description and uri can be read back out of the representation |
| RestFoundation.RestRequest.constructor | modules/qs/rest_foundation.py:71-84 | a fresh request is a GET; it is not critical; params, body and headers are empty; there is no response, data or success yet; it is silent iff the `silent` keyword is exactly True |
| RestFoundation.RestRequest.FullUrl | modules/qs/rest_foundation.py:182-183 | the base url followed by the uri |
| RestFoundation.RestRequest.FullParams | modules/qs/rest_foundation.py:185-186 | the request's params override the base params key by key; other base params survive |
| RestFoundation.RestRequest.FullData | modules/qs/rest_foundation.py:188-189 | the same for the request body |
| RestFoundation.RestRequest.FullHeaders | modules/qs/rest_foundation.py:191-192 | the same for the headers |
| RestFoundation.RestRequest.SentCall | modules/qs/rest_foundation.py:101-106 | the call is sent to the full url |
| RestFoundation.RestRequest.SetApiKey | modules/qs/rest_foundation.py:114-116 | `params['apiKey']` becomes the key and the request's key is set; every other param stays, and no other field may change |
| RestFoundation.RestRequest.ProcessResponse | modules/qs/rest_foundation.py:126-138 | successful iff the status is exactly 200; on failure the data is the empty dict; on success the data is the parsed body, or ValueError with the data left alone |
| RestFoundation.RestRequest.MakeRequest | modules/qs/rest_foundation.py:86-112 | the response is recorded and classified; data is returned, `{}` for any non-200; the event trace grows by exactly the ordered step sequence, with the log dicts taken before and after |
| QsCache.ShouldMakeRequest | modules/qs/qs_api.py:1360-1374 | request iff `use_cache` is exactly False, or fields were asked for and the cache says it lacks them, or the cache answers None; the cache is not consulted when bypassed, and `get` is consulted iff fields are not lacking |
| QsCache.OnlyFalseBypasses | modules/qs/qs_api.py:1367-1368 | only the exact value False bypasses the cache; another falsy `use_cache` lets a filled cache answer |
| QsCache.DecisionDependsOnAskedOnly | modules/qs/qs_api.py:1360-1374 | two caches that give the same answers to the questions asked lead to the same decision |
| QsAccessKey.MatchEnd | modules/qs/qs_api.py:1295 | `re.match(r'(.+)\.', key)` ends at the last dot that has a character before it and no newline before it, if there is one |
| QsAccessKey.ParseAccessKey | modules/qs/qs_api.py:1289-1300 | an access key that matches is an API key, and its school code is the text before that dot; any other access key is itself the school code |
| QsAccessKey.ParseComposedKey | modules/qs/qs_api.py:1289-1300 | `schoolcode.secret` gives back its school code when the secret has no dot |
| QsAccessKey.ParseBareSchoolcode | modules/qs/qs_api.py:1289-1300 | a key with no dot after its first character is a school code |
| QsAccessKey.LeadingDotIsSchoolcode | modules/qs/qs_api.py:1295 | a leading dot does not make an API key |
| QsAccessKey.DotAfterNewlineIsSchoolcode | modules/qs/qs_api.py:1295 | a dot after a newline does not make an API key |
| QsAccessKey.KeyStorePath | modules/qs/qs_api.py:1302-1303 | the key-store path is `['qs', server, schoolcode]` |
| QsAccessKey.KeyStorePathInjective | modules/qs/qs_api.py:1302-1303 | different servers or schools never share a key-store path |
| QsEnrollment.EnrollmentDict | modules/qs/qs_api.py:1305-1311 | KeyError iff there is no `fullName`; otherwise exactly three keys, `id` equal to `smsStudentStubId`, taken from a truthy `id` or else the stub id, with `fullName` copied |
| QsEnrollment.EnrollmentDictIdempotent | modules/qs/qs_api.py:1305-1311 | an enrollment dict maps to itself |
| QsEnrollment.CollectSectionEnrollments | modules/qs/qs_api.py:1313-1333 | the nested loops compute the section-to-students index `SectionEnrollmentIndex`, raising what it raises |
| QsEnrollment.AppendStudent | modules/qs/qs_api.py:1321-1326 | the inner loop for one student: hashes each section id before reading the enrollment dict, and gives exactly `AddStudent` (TypeError at the first unhashable id, the record's error at the first id, else the record appended under every id) |
| QsEnrollment.StudentFailure | modules/qs/qs_api.py:1321-1326 | a student that does not fail has a readable list of section ids and, when the list is not empty, only hashable ids and a readable enrollment dict |
| QsEnrollment.IndexStudentsOk | modules/qs/qs_api.py:1320-1326 | the student loop succeeds iff no student fails, and otherwise raises exactly what the first failing student raises |
| QsEnrollment.AddUnderAt | modules/qs/qs_api.py:1321-1326 | appending one student under its section ids adds it to each section as often as the id is listed |
| QsEnrollment.AddUnderKeys | modules/qs/qs_api.py:1321-1324 | the sections after appending are those before plus the student's ids |
| QsEnrollment.IndexStudentsKeys | modules/qs/qs_api.py:1320-1326 | the sections indexed are exactly those some student lists |
| QsEnrollment.IndexStudentsLookup | modules/qs/qs_api.py:1320-1326 | each indexed section holds the enrollment dicts of the students listing it, in student order, once per listing |
| QsEnrollment.AddSectionsAt | modules/qs/qs_api.py:1327-1330 | succeeds iff every section has a hashable id; otherwise the first failing section decides: KeyError without an id, TypeError for a list, set or dict id; on success every section id gets an entry and existing entries are unchanged |
| QsEnrollment.SectionEnrollmentIndexAt | modules/qs/qs_api.py:1320-1333 | every section from either source gets an entry, and each entry lists exactly its enrolled students, in order |
| QsEnrollment.IndexStudentsPrefixErr | modules/qs/qs_api.py:1320-1326 | once a student raises, the whole computation raises the same error |
| QsEnrollment.AddSectionsPrefixErr | modules/qs/qs_api.py:1327-1330 | once a section raises, the whole computation raises the same error |
| QsEnrollment.ListEntries | modules/qs/qs_api.py:1335-1338 | one `{id, <list key>}` record per entry, each entry exactly once |
| QsEnrollment.SectionEnrollmentRecords | modules/qs/qs_api.py:1313-1338 | the cache receives one `{id, students}` record per section of the index; errors are those of the index |
| QsEnrollment.IdsOfItems | modules/qs/qs_api.py:637 | `[i['id'] for i in items]`: succeeds iff every item is a dict with an id, giving those ids in order |
| QsEnrollment.StudentIdsInOk | modules/qs/qs_api.py:637-640 | a section's students can be read iff it has a `students` list of dicts with ids and none of the ids is a list, set or dict (TypeError from `not in all_students`); the ids are then those of the list, in order |
| QsEnrollment.InvertEnrollments | modules/qs/qs_api.py:636-641 | succeeds iff every section's students can be read (ids hashable included); otherwise raises the error of some section's students; every student id is listed under the sections enrolling it, once per occurrence, and only such keys exist |
| QsEnrollment.InvertedMembership | modules/qs/qs_api.py:636-641 | section x is in student s's list iff s occurs in x's students, and every listed section is an input section |
| QsEnrollment.GetStudentEnrollments | modules/qs/qs_api.py:605-653 | a list of sections is first keyed by id, raising what `dict_list_to_dict` raises (KeyError or TypeError); once keyed, it fails exactly when some section's students cannot be read, with that section's error; `by_id` exactly True gives the student-to-sections map, otherwise one `{id, sections}` record per student of that map |
| QsSections.TeacherIds | modules/qs/qs_api.py:420 | KeyError without `teachers`; a teachers value that is not a list or string gives ids only when it is an empty dict or set |
| QsSections.TeacherIdsOfList | modules/qs/qs_api.py:420 | for a list of teachers: succeeds iff every teacher is a dict with a hashable id, and the result is exactly those ids |
| QsSections.TaggedIdempotent | modules/qs/qs_api.py:420-421 | tagging a candidate with its teacher ids twice equals tagging it once |
| QsSections.SectionDictFor | modules/qs/qs_api.py:377-391 | a dict is the target itself; an all-digit id is looked up and tagged with its teacher ids; any other valid id becomes `{sectionName: id}`; anything else raises TypeError |
| QsSections.NegativeIdIsName | modules/qs/qs_api.py:377-385 | a negative int id is not all digits, so it is matched as a section name |
| QsSections.KeepIff | modules/qs/qs_api.py:408-426 | a candidate is kept iff every enabled flag's key that the target has holds the same value in the candidate |
| QsSections.DroppingAKeyKeepsMore | modules/qs/qs_api.py:408-414 | a key the target lacks never excludes a candidate |
| QsSections.DisablingKeepsMore | modules/qs/qs_api.py:408-414 | a disabled flag never excludes a candidate |
| QsSections.DefaultIgnoresClassId | modules/qs/qs_api.py:343-346 | with the default flags the class id never matters |
| QsSections.SelectedIff | modules/qs/qs_api.py:417-426 | a candidate is among the matches iff one of its occurrences survives every dealbreaker |
| QsSections.SelectedEmpty | modules/qs/qs_api.py:417-426 | when nothing survives, there are no matches |
| QsSections.TagCandidate | modules/qs/qs_api.py:419-420 | the candidate gains `teacherIds`, or nothing changes and the error is raised |
| QsSections.TagStep | modules/qs/qs_api.py:418-420 | one turn of the search loop: the candidate is tagged and the progress invariant moves one step, or the loop stops at it with its error |
| QsSections.FilterCandidates | modules/qs/qs_api.py:417-426 | succeeds iff every candidate's teachers can be read; then every candidate is tagged in place and the matches are exactly the kept candidates in pool order; otherwise the error is that of some unreadable candidate, every candidate before it is tagged, and the later ones are unchanged or tagged |
| QsSections.ChooseOutcome | modules/qs/qs_api.py:431-457 | no match gives "FALSE" iff failing silently; `allow_multiple` gives the list; exactly one match gives it; otherwise a LookupError is logged, critically iff `critical` is exactly True |
| QsSections.MatchSection | modules/qs/qs_api.py:343-457 | the target's errors, then the candidates' errors, are raised; otherwise the answer is the chosen outcome over the kept candidates, every candidate is tagged, and the matches have their sets turned into lists; a candidate's error is that of an unreadable candidate, after the ones before it were tagged |
| QsApi.ClassFor | modules/qs/qs_api.py:1217-1227 | live, backup and local select their request class; any other server is a KeyError |
| QsApi.InitialApiKey | modules/qs/qs_api.py:1289-1300 | an API-key access key is itself the key; otherwise the key is what the store holds at `['qs', server, schoolcode]` |
| QsApi.ApiKeyRoundTrip | modules/qs/qs_api.py:1255-1300 | once `schoolcode.secret` is stored after a success, a wrapper created from the bare school code on the same server uses that key |
| QsApi.FieldItems | modules/qs/qs_api.py:1248-1251 | a string is added as one field; a list adds its items; a set adds its elements and a dict its keys, each once; an int, bool or object raises TypeError |
| QsApi.RequestOutcome | modules/qs/rest_foundation.py:126-138 | the parsed body on success; `{}` for any non-200; ValueError for an unparsable 200 |
| QsApi.QsApiWrapper.constructor | modules/qs/qs_api.py:41-62 | the wrapper starts with no cache calls; its school code and API key come from the access key as `_parse_access_key` reads it |
| QsApi.QsApiWrapper.ParseAccessKey | modules/qs/qs_api.py:1289-1300 | sets the school code and the API key, the latter taken from the store for a bare school code |
| QsApi.QsApiWrapper.KeyStorePath | modules/qs/qs_api.py:1302-1303 | the wrapper's key-store path for its server and school |
| QsApi.QsApiWrapper.NewRequest | modules/qs/qs_api.py:1217-1227 | a fresh request of the server's class with the given description and uri, or KeyError for an unknown server |
| QsApi.QsApiWrapper.PrepareRequest | modules/qs/qs_api.py:1241-1251 | the API key goes into the params and becomes the request's key, a truthy `critical` marks the request critical, and the fields are extended by what `fields` adds; TypeError when they cannot be iterated, leaving the fields as they were; only params, key, `critical` and fields may change |
| QsApi.QsApiWrapper.SendAndStore | modules/qs/qs_api.py:1253-1257 | the request is made and its data is the returned value (left alone on an error); the key store changes, at the wrapper's path, only when the request completed with status 200 |
| QsApi.QsApiWrapper.MakeRequest | modules/qs/qs_api.py:1229-1257 | the whole of `_make_request`: the request carries the wrapper's API key; fields that cannot be iterated raise before anything is sent, leaving fields, success and data alone; otherwise the data is returned and is the request's data; the key is stored only after a success |
| QsApi.QsApiWrapper.UpdateSectionEnrollmentCache | modules/qs/qs_api.py:1313-1338 | nothing happens when the cache can answer; otherwise one `add` of the list of `{id, students}` records, one per indexed section, is made to the section enrollment cache, or nothing is added when the index raises, and the error is the index's (the loops' KeyError or TypeError) |
| QsApi.QsApiWrapper.DeleteSection | modules/qs/qs_api.py:531-549 | the decorator's id errors come first; a request is built iff the id is valid and the server known, and it is a DELETE to `/sections/<clean id>` with no body, the API key as its only param, sent with the response iff the fields are usable; the section cache entry is invalidated iff the delete succeeded; the API key is stored under `['qs', server, schoolcode]` exactly when it succeeded |
| QsApi.QsApiWrapper.DeleteSectionEnrollments | modules/qs/qs_api.py:676-700 | a non-list `student_ids` raises TypeError and an empty list ValueError, before any request; otherwise a DELETE to `/sectionenrollments/<clean id>` with body `{studentIds}` and the API key as param is built when the server is known; the enrollment cache entry is invalidated iff the delete succeeded; the API key is stored exactly when it succeeded |
| QsApi.PostSectionTeacherIdsAsWritten | modules/qs/qs_api.py:464 | as written: a list `teacher_id` reads the unassigned local `teacher_ids` and raises UnboundLocalError; anything else is wrapped in a one-element list |
| QsApi.PostSectionTeacherIds | modules/qs/qs_api.py:464 | the teacher ids are always a list: a list `teacher_id` as given, anything else as a one-element list |
| QsApi.PostSectionTeacherIdsFails | modules/qs/qs_api.py:464 | `post_section(..., teacher_id=[7, 8])` fails as written; the corrected version sends `[7, 8]` |
| QsApi.PostSectionTeacherIdsAgree | modules/qs/qs_api.py:464 | for a single teacher id, the code as written and the corrected version agree |
| QsApi.WithSemesterId | modules/qs/qs_api.py:478 | a dict with `smsAcademicSemesterId` gains `semesterId` holding that value and keeps its other keys; a dict without it raises KeyError, anything else TypeError |
| QsApi.QsApiWrapper.PostSection | modules/qs/qs_api.py:459-480 | unknown server and unusable fields raise first; the request is a POST to `/sections` with params `fields=smsAcademicSemesterId` plus the API key and the body `{classId, sectionName, sectionCode, creditHours, teacherIds}`; on a completed 200 the data gains its semester id and exactly that section is added to the section cache; otherwise the request's outcome is returned and no cache call is made; the API key is stored exactly when the server is known, the fields usable and the request completed |
| QsApi.QsApiWrapper.PostGrades | modules/qs/qs_api.py:919-946 | an invalid assignment id raises before any request; otherwise, with a known server, a POST to `/grades` with body `{sectionId, assignmentId (cleaned), grades}` and the API key as param; the whole grade cache is invalidated iff the post succeeded; the API key is stored exactly when it succeeded |

## Left out

- Network I/O (`requests.request`): the response is an input. The raw HTTP
  response object is reduced to its status code, text and parsed JSON.
- The rate limiter (`qs.rate_limiting`), the cache class
  (`qs.ListWithIDCache`) and the request subclasses (`qs.QSRequest` and
  its siblings) are not part of this model. They appear only as recorded
  events, as a cache's answers, and as a `RequestClass` value with base url,
  base maps and initial `fields`.
- The logger and the process exit after a critical log: only the chosen
  severity and the logged dict are recorded.
- JSON encoding: `json.dumps(student_ids)`, `json.dumps(grades)` and
  `post_section`'s `json.dumps(teacher_ids)` (modules/qs/qs_api.py:474) are
  stored in the request body as the raw values. So the TypeError `json.dumps`
  raises for a set or a non-builtin object inside those values is not
  modelled: for such inputs `QsApi.QsApiWrapper.DeleteSectionEnrollments`,
  `QsApi.QsApiWrapper.PostGrades` and `QsApi.QsApiWrapper.PostSection` send
  the request where the source raises before sending.
- The key store's own persistence (`qs.api_keys`) is a map held by the
  wrapper, and a missing entry reads as None.
- Floating point (`finance_to_float`) and the terminal, random and process
  helpers (`pp`, `print_break`, `rand_str`, `running_from_test`, `dumps`).
- The endpoint methods that only build a URI and forward a request. Also
  `delete_section`'s `delete_enrollment` branch, which only calls another
  endpoint method first.
- QsApi.QsApiWrapper.PostSection: it sends the corrected teacher ids of the
  third Findings row.
- `get_grade_category_ids` is not modelled: it calls `.add` on a list
  (modules/qs/qs_api.py:831), so any duplicate category name makes it fail.
- QsEnrollment.Iterate: a dict or set of section ids (which Python would
  iterate) is treated as not iterable and raises TypeError. The API returns
  lists there.
- RestFoundation.RestRequest: `critical` is a bool. The wrapper stores the
  caller's truthy value, and only its truthiness is ever read.
- QsSections.MatchSection:
  - The target is a value, not shared state. So the in-place writes to the
    section dict returned by `get_section`, and to a caller's identifier
    dict, are not modelled: `teacherIds`, and `sets_to_lists` on the
    target.
  - The fetching of the candidate pool and of the looked-up section is also
    not modelled; both are inputs. So are `clean_id(target_semester_id)` and
    `clean_id(student_id)` (modules/qs/qs_api.py:393-406): the errors they
    raise for an invalid id, before any candidate is read, are not
    modelled.
  - The log record's contents are not modelled.
- QsSections.SectionDictFor: the target's teacher ids come from a set
  comprehension, which raises at the first bad teacher. So with both an
  unhashable id and a missing id it could raise TypeError where the model
  raises KeyError.
- QsApi.QsApiWrapper.MakeRequest: its contract does not restate the request's
  event trace, which `RestFoundation.RestRequest.MakeRequest` states.
- RestFoundation.RestRequest.MakeRequest: the log-before and the log-after
  carry the corrected log dict `LogEntry` of the second Findings row. The
  log-before differs from the source's `_log_dict` only when a request is
  sent again after a 4xx or 5xx response. As written
  (`LogEntryAsWritten`), a 4xx or 5xx response is logged without its status
  code, `successful` and response data.
- Values.Value, Util.IsValidId, Util.CleanId, Util.MakeId, Util.IsBuiltin:
  Python 2 `unicode` is not told apart from `str`. So `is_builtin(u'x')`
  (False in the code) and the UnicodeEncodeError of `str()` on non-ASCII
  text are not modelled. `True == 1` and `False == 0` equality is not
  modelled either (as dict keys, or in a dealbreaker's `!=`). A small `long`
  such as `5L` is treated as an int; only integers outside [-2^63, 2^63)
  are `long`s.
- QsSections.FilterCandidates, QsSections.MatchSection: on an error, a
  candidate after the failing one is stated only to be unchanged or tagged.
  It is tagged exactly when its dict also occurs earlier in the pool.

## Findings

| source | as written | input that shows it | evidently intended | confidence | as-written member | corrected member |
|---|---|---|---|---|---|---|
| modules/qs/util.py:78 | `is_valid_id(some_id, func_name)` passes `func_name` as `check_only`, so with a `func_name` an invalid id makes `clean_id` return None | `clean_id(None, 'get_student')` returns None | raise ValueError/TypeError as without a `func_name` | high, not executed | Util.CleanIdAsWritten, Util.CleanIdAsWrittenSwallowsError | Util.CleanId |
| modules/qs/rest_foundation.py:170 | `if self.response:` uses the response object's truthiness, which is false for status 400 to 599 | a 404 response: the log dict has no status code, `successful` or response data | test whether a response exists (`is not None`) | medium, not executed | RestFoundation.LogEntryAsWritten, RestFoundation.LogEntryDropsFailedStatus | RestFoundation.LogEntry, RestFoundation.LogEntryContents |
| modules/qs/qs_api.py:464 | `teacher_ids = teacher_ids if type(teacher_id) is list else [teacher_id]` reads the local `teacher_ids` before it is assigned | `post_section('Math', 'M1', 5, [7, 8])` raises UnboundLocalError | `teacher_id if type(teacher_id) is list else [teacher_id]` | high, not executed | QsApi.PostSectionTeacherIdsAsWritten, QsApi.PostSectionTeacherIdsFails | QsApi.PostSectionTeacherIds |
