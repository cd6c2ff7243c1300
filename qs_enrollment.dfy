/**
 * Section enrollments in the QS API wrapper (modules/qs/qs_api.py): the
 * student record kept in an enrollment (`_enrollment_dict`), the index from
 * section id to enrolled students built from the students' section lists
 * (`_update_section_enrollment_cache`), and its inversion into the sections
 * of each student (`get_student_enrollments`).
 *
 * The lists of students and sections, which the wrapper fetches through its
 * caches, are inputs.
 */
module QsEnrollment {
  import opened Values
  import Util

  // ===========================================================
  // _enrollment_dict
  // ===========================================================

  /** `student.get('id') or student.get('smsStudentStubId')`. */
  function StudentId(student: Record): Value {
    if Truthy(Get(student, "id")) then student["id"] else Get(student, "smsStudentStubId")
  }

  /**
   * `_enrollment_dict(student)`: the student's id (falling back to the stub
   * id when the id is missing or empty) under both `id` and
   * `smsStudentStubId`, and the student's full name; KeyError without one.
   */
  function EnrollmentDict(student: Record): (r: Result<Record>)
    ensures r.Ok? <==> "fullName" in student
    ensures r.Err? ==> r.error == KeyError
    ensures r.Ok? ==> r.value.Keys == {"id", "smsStudentStubId", "fullName"}
    ensures r.Ok? ==> r.value["id"] == r.value["smsStudentStubId"]
    ensures r.Ok? ==> r.value["fullName"] == student["fullName"]
    ensures r.Ok? && Truthy(Get(student, "id")) ==> r.value["id"] == student["id"]
    ensures r.Ok? && !Truthy(Get(student, "id")) ==> r.value["id"] == Get(student, "smsStudentStubId")
  {
    var studentId := StudentId(student);
    var fullName :- Index(student, "fullName");
    Ok(map["id" := studentId, "smsStudentStubId" := studentId, "fullName" := fullName])
  }

  /** An enrollment record is its own enrollment record. */
  lemma EnrollmentDictIdempotent(student: Record)
    requires EnrollmentDict(student).Ok?
    ensures EnrollmentDict(EnrollmentDict(student).value) == EnrollmentDict(student)
  {
    var e := EnrollmentDict(student).value;
    assert StudentId(e) == e["id"];
  }

  // ===========================================================
  // Iterating a Python value
  // ===========================================================

  /**
   * `for x in v` over a list (its items) or a string (its characters, as
   * one-character strings); None for a value that is not iterable, and for
   * a dict or set, whose iteration order the model does not fix.
   */
  function Iterate(v: Value): (r: Option<seq<Value>>)
    ensures v.List? ==> r == Some(v.items)
    ensures v.Str? ==> r.Some? && |r.value| == |v.s|
    ensures v.Str? ==> forall j :: 0 <= j < |v.s| ==> r.value[j] == Str([v.s[j]])
    ensures !v.List? && !v.Str? ==> r.None?
  {
    match v
    case List(items) => Some(items)
    case Str(s) => Some(seq(|s|, j requires 0 <= j < |s| => Str([s[j]])))
    case _ => None
  }

  // ===========================================================
  // _update_section_enrollment_cache
  // ===========================================================

  /** `student['smsClassSubjectSetIdList']`, iterated. */
  function SectionIdsOf(student: Record): (r: Result<seq<Value>>)
    ensures r.Err? ==> r.error == KeyError || r.error == TypeError
    ensures r.Ok? ==> "smsClassSubjectSetIdList" in student
  {
    var ids :- Index(student, "smsClassSubjectSetIdList");
    match Iterate(ids)
    case Some(items) => Ok(items)
    case None => Err(TypeError)
  }

  /** The list stored under `k`, empty when there is none. */
  function Lookup<K>(m: map<K, seq<Value>>, k: K): seq<Value> {
    if k in m then m[k] else []
  }

  /** `n` copies of `v`. */
  function Repeat(v: Value, n: nat): (r: seq<Value>)
    ensures |r| == n && forall j :: 0 <= j < n ==> r[j] == v
  {
    if n == 0 then [] else Repeat(v, n - 1) + [v]
  }

  /** Appends `rec` under every id of `ids`, creating empty lists on the way. */
  function AddUnder(m: map<Value, seq<Value>>, ids: seq<Value>, rec: Value): map<Value, seq<Value>> {
    if ids == [] then m
    else
      var m' := AddUnder(m, ids[..|ids| - 1], rec);
      var x := ids[|ids| - 1];
      m'[x := Lookup(m', x) + [rec]]
  }

  /**
   * What the first loop of `_update_section_enrollment_cache` raises for one
   * student, if anything: reading its list of section ids; then, for each
   * id, `section_id not in section_enrollments` hashes it (TypeError for a
   * list, set or dict) before `_enrollment_dict` reads the record.
   */
  function StudentFailure(student: Record): (r: Option<Error>)
    ensures r.None? ==> SectionIdsOf(student).Ok?
    ensures r.None? && SectionIdsOf(student).value != [] ==>
      EnrollmentDict(student).Ok? && AllHashable(SectionIdsOf(student).value)
  {
    match SectionIdsOf(student)
    case Err(e) => Some(e)
    case Ok(ids) =>
      if ids == [] then None
      else if !Hashable(ids[0]) then Some(TypeError)
      else if EnrollmentDict(student).Err? then Some(EnrollmentDict(student).error)
      else if AllHashable(ids) then None
      else Some(TypeError)
  }

  /**
   * The first loop of `_update_section_enrollment_cache`: every student's
   * enrollment record is appended under each section id of its list, in
   * order; the first student that fails raises.
   */
  function IndexStudents(students: seq<Record>): Result<map<Value, seq<Value>>> {
    if students == [] then Ok(map[])
    else
      var student := students[|students| - 1];
      var enrollments :- IndexStudents(students[..|students| - 1]);
      AddStudent(enrollments, student)
  }

  /** One step of the first loop: `student`'s record under each id of its list. */
  function AddStudent(enrollments: map<Value, seq<Value>>, student: Record): Result<map<Value, seq<Value>>> {
    match StudentFailure(student)
    case Some(e) => Err(e)
    case None =>
      var ids := SectionIdsOf(student).value;
      if ids == [] then Ok(enrollments)
      else Ok(AddUnder(enrollments, ids, Dict(EnrollmentDict(student).value)))
  }

  /**
   * The students' index exists exactly when no student fails, and otherwise
   * raises what the first failing student raises.
   */
  lemma {:induction false} IndexStudentsOk(students: seq<Record>)
    ensures IndexStudents(students).Ok? <==> forall k :: 0 <= k < |students| ==> StudentFailure(students[k]).None?
    ensures IndexStudents(students).Err? ==> exists n :: FirstFailing(students, n, IndexStudents(students).error)
  {
    if students != [] {
      var front := students[..|students| - 1];
      var student := students[|students| - 1];
      IndexStudentsOk(front);
      forall k | 0 <= k < |front|
        ensures front[k] == students[k]
      {
      }
      if IndexStudents(front).Err? {
        var n :| FirstFailing(front, n, IndexStudents(front).error);
        assert FirstFailing(students, n, IndexStudents(students).error);
      } else if StudentFailure(student).Some? {
        assert FirstFailing(students, |students| - 1, IndexStudents(students).error);
      }
    }
  }

  /** Student `n` is the first that fails, raising `e`. */
  predicate FirstFailing(students: seq<Record>, n: int, e: Error) {
    && 0 <= n < |students|
    && StudentFailure(students[n]) == Some(e)
    && forall k :: 0 <= k < n ==> StudentFailure(students[k]).None?
  }

  /**
   * The second loop: every section's id gets an entry, empty unless
   * students listed it; `section['id']` raises KeyError, and
   * `section_id not in section_enrollments` TypeError for an unhashable id.
   */
  function AddSections(enrollments: map<Value, seq<Value>>, sections: seq<Record>): Result<map<Value, seq<Value>>> {
    if sections == [] then Ok(enrollments)
    else
      var before :- AddSections(enrollments, sections[..|sections| - 1]);
      var sectionId :- Index(sections[|sections| - 1], "id");
      if !Hashable(sectionId) then Err(TypeError)
      else Ok(if sectionId in before then before else before[sectionId := []])
  }

  /** What `_update_section_enrollment_cache` collects before listing it. */
  function SectionEnrollmentIndex(students: seq<Record>, sections: seq<Record>): Result<map<Value, seq<Value>>> {
    var enrollments :- IndexStudents(students);
    AddSections(enrollments, sections)
  }

  /** Once a prefix of the students raises, the whole list raises the same. */
  lemma {:induction false} IndexStudentsPrefixErr(students: seq<Record>, i: nat)
    requires i <= |students| && IndexStudents(students[..i]).Err?
    ensures IndexStudents(students) == IndexStudents(students[..i])
    decreases |students| - i
  {
    if i < |students| {
      var next := students[..i + 1];
      assert next[..i] == students[..i];
      assert IndexStudents(next) == IndexStudents(students[..i]);
      IndexStudentsPrefixErr(students, i + 1);
    } else {
      assert students[..i] == students;
    }
  }

  /** Once a prefix of the sections raises, the whole list raises the same. */
  lemma {:induction false} AddSectionsPrefixErr(m: map<Value, seq<Value>>, sections: seq<Record>, i: nat)
    requires i <= |sections| && AddSections(m, sections[..i]).Err?
    ensures AddSections(m, sections) == AddSections(m, sections[..i])
    decreases |sections| - i
  {
    if i < |sections| {
      var next := sections[..i + 1];
      assert next[..i] == sections[..i];
      assert AddSections(m, next) == AddSections(m, sections[..i]);
      AddSectionsPrefixErr(m, sections, i + 1);
    } else {
      assert sections[..i] == sections;
    }
  }

  /**
   * The body of the first loop of `_update_section_enrollment_cache` for one
   * student: each section id is hashed, then `_enrollment_dict` is called
   * and its result appended under the id.
   */
  method AppendStudent(enrollments: map<Value, seq<Value>>, student: Record) returns (r: Result<map<Value, seq<Value>>>)
    ensures r == AddStudent(enrollments, student)
  {
    var read := SectionIdsOf(student);
    if read.Err? {
      return Err(read.error);
    }
    var ids := read.value;
    var all := enrollments;
    for j := 0 to |ids|
      invariant forall k :: 0 <= k < j ==> Hashable(ids[k])
      invariant j == 0 ==> all == enrollments
      invariant j > 0 ==> EnrollmentDict(student).Ok?
      invariant j > 0 ==> all == AddUnder(enrollments, ids[..j], Dict(EnrollmentDict(student).value))
    {
      var sectionId := ids[j];
      if !Hashable(sectionId) {
        AddStudentUnhashable(enrollments, student, j);
        return Err(TypeError);
      }
      if sectionId !in all {
        all := all[sectionId := []];
      }
      var rec := EnrollmentDict(student);
      if rec.Err? {
        AddStudentNoRecord(enrollments, student);
        return Err(rec.error);
      }
      ghost var prefix := ids[..j + 1];
      assert prefix[..j] == ids[..j] && prefix[j] == sectionId;
      all := all[sectionId := all[sectionId] + [Dict(rec.value)]];
    }
    assert ids[..|ids|] == ids;
    AddStudentDone(enrollments, student);
    r := Ok(all);
  }

  /** A student whose first id can be hashed but whose record cannot be read raises what reading it raises. */
  lemma AddStudentNoRecord(enrollments: map<Value, seq<Value>>, student: Record)
    requires SectionIdsOf(student).Ok? && SectionIdsOf(student).value != []
    requires Hashable(SectionIdsOf(student).value[0]) && EnrollmentDict(student).Err?
    ensures AddStudent(enrollments, student) == Err(EnrollmentDict(student).error)
  {
  }

  /** A student whose ids all hash and whose record, if needed, is readable has its record added under its ids. */
  lemma AddStudentDone(enrollments: map<Value, seq<Value>>, student: Record)
    requires SectionIdsOf(student).Ok? && AllHashable(SectionIdsOf(student).value)
    requires SectionIdsOf(student).value != [] ==> EnrollmentDict(student).Ok?
    ensures AddStudent(enrollments, student) == Ok(
      if SectionIdsOf(student).value == [] then enrollments
      else AddUnder(enrollments, SectionIdsOf(student).value, Dict(EnrollmentDict(student).value)))
  {
  }

  /** A student whose id `j` cannot be hashed, the ids before it hashable, raises TypeError. */
  lemma AddStudentUnhashable(enrollments: map<Value, seq<Value>>, student: Record, j: int)
    requires SectionIdsOf(student).Ok? && 0 <= j < |SectionIdsOf(student).value|
    requires !Hashable(SectionIdsOf(student).value[j])
    requires forall k :: 0 <= k < j ==> Hashable(SectionIdsOf(student).value[k])
    requires j > 0 ==> EnrollmentDict(student).Ok?
    ensures AddStudent(enrollments, student) == Err(TypeError)
  {
  }

  /**
   * The loops of `_update_section_enrollment_cache`, up to listing the
   * collected dict: the result is `SectionEnrollmentIndex`.
   */
  method CollectSectionEnrollments(students: seq<Record>, sections: seq<Record>)
    returns (r: Result<map<Value, seq<Value>>>)
    ensures r == SectionEnrollmentIndex(students, sections)
  {
    var enrollments: map<Value, seq<Value>> := map[];
    for i := 0 to |students|
      invariant IndexStudents(students[..i]) == Ok(enrollments)
    {
      var student := students[i];
      assert students[..i + 1][..i] == students[..i];
      var next := AppendStudent(enrollments, student);
      if next.Err? {
        IndexStudentsPrefixErr(students, i + 1);
        return Err(next.error);
      }
      enrollments := next.value;
    }
    assert students[..|students|] == students;
    ghost var indexed := enrollments;
    for k := 0 to |sections|
      invariant AddSections(indexed, sections[..k]) == Ok(enrollments)
    {
      assert sections[..k + 1][..k] == sections[..k];
      var sectionId := Index(sections[k], "id");
      if sectionId.Err? {
        AddSectionsPrefixErr(indexed, sections, k + 1);
        return Err(sectionId.error);
      }
      if !Hashable(sectionId.value) {
        AddSectionsPrefixErr(indexed, sections, k + 1);
        return Err(TypeError);
      }
      if sectionId.value !in enrollments {
        enrollments := enrollments[sectionId.value := []];
      }
    }
    assert sections[..|sections|] == sections;
    r := Ok(enrollments);
  }

  /** Appending under `ids` adds exactly the ids as keys. */
  lemma {:induction false} AddUnderKeys(m: map<Value, seq<Value>>, ids: seq<Value>, rec: Value, x: Value)
    ensures x in AddUnder(m, ids, rec) <==> x in m || x in ids
  {
    if ids != [] {
      var front := ids[..|ids| - 1];
      AddUnderKeys(m, front, rec, x);
      assert ids == front + [ids[|ids| - 1]];
    }
  }

  /** The last id of `ids` gets one more copy of `rec`; the others keep theirs. */
  lemma AddUnderStep(m: map<Value, seq<Value>>, ids: seq<Value>, rec: Value, x: Value)
    requires ids != []
    ensures Lookup(AddUnder(m, ids, rec), x) ==
      Lookup(AddUnder(m, ids[..|ids| - 1], rec), x) + (if x == ids[|ids| - 1] then [rec] else [])
  {
  }

  /** Occurrences of `x` in a non-empty sequence: those before the last element, plus the last. */
  lemma CountLast(s: seq<Value>, x: Value)
    requires s != []
    ensures multiset(s)[x] == multiset(s[..|s| - 1])[x] + (if x == s[|s| - 1] then 1 else 0)
  {
    assert s == s[..|s| - 1] + [s[|s| - 1]];
  }

  /** Appending under `ids` adds `rec` under `x` once per occurrence of `x` in `ids`. */
  lemma {:induction false} AddUnderAt(m: map<Value, seq<Value>>, ids: seq<Value>, rec: Value, x: Value)
    ensures Lookup(AddUnder(m, ids, rec), x) == Lookup(m, x) + Repeat(rec, multiset(ids)[x])
  {
    if ids != [] {
      var front := ids[..|ids| - 1];
      AddUnderAt(m, front, rec, x);
      AddUnderStep(m, ids, rec, x);
      CountLast(ids, x);
      var n := multiset(front)[x];
      if x == ids[|ids| - 1] {
        assert Repeat(rec, n + 1) == Repeat(rec, n) + [rec];
      }
    }
  }

  /** The student's list names section `x`. */
  predicate ListsSection(student: Record, x: Value) {
    SectionIdsOf(student).Ok? && x in SectionIdsOf(student).value
  }

  /**
   * Reference definition of the students enrolled under section `x`: in
   * student order, each student's enrollment record once for every time
   * its list names `x`.
   */
  function Enrolled(students: seq<Record>, x: Value): seq<Value> {
    if students == [] then []
    else
      var student := students[|students| - 1];
      var copies :=
        if SectionIdsOf(student).Ok? && EnrollmentDict(student).Ok? then
          Repeat(Dict(EnrollmentDict(student).value), multiset(SectionIdsOf(student).value)[x])
        else [];
      Enrolled(students[..|students| - 1], x) + copies
  }

  /** The students' index has a key for exactly the section ids the students list. */
  lemma {:induction false} IndexStudentsKeys(students: seq<Record>, x: Value)
    requires IndexStudents(students).Ok?
    ensures x in IndexStudents(students).value <==>
      exists k :: 0 <= k < |students| && ListsSection(students[k], x)
  {
    if students != [] {
      var front := students[..|students| - 1];
      var student := students[|students| - 1];
      IndexStudentsKeys(front, x);
      var ids := SectionIdsOf(student).value;
      if ids != [] {
        AddUnderKeys(IndexStudents(front).value, ids, Dict(EnrollmentDict(student).value), x);
      }
      if exists k :: 0 <= k < |students| && ListsSection(students[k], x) {
        var k :| 0 <= k < |students| && ListsSection(students[k], x);
        if k < |students| - 1 {
          assert front[k] == students[k];
        }
      }
      if exists k :: 0 <= k < |front| && ListsSection(front[k], x) {
        var k :| 0 <= k < |front| && ListsSection(front[k], x);
        assert students[k] == front[k];
      }
    }
  }

  /** Under each section id the students' index holds the records `Enrolled` names. */
  lemma {:induction false} IndexStudentsLookup(students: seq<Record>, x: Value)
    requires IndexStudents(students).Ok?
    ensures Lookup(IndexStudents(students).value, x) == Enrolled(students, x)
  {
    if students != [] {
      var front := students[..|students| - 1];
      var student := students[|students| - 1];
      IndexStudentsLookup(front, x);
      var ids := SectionIdsOf(student).value;
      if ids != [] {
        AddUnderAt(IndexStudents(front).value, ids, Dict(EnrollmentDict(student).value), x);
      }
    }
  }

  /**
   * The section loop raises exactly when a section has no id (KeyError) or
   * an unhashable one (TypeError), the first such section deciding; and
   * otherwise only adds empty entries.
   */
  lemma {:induction false} AddSectionsAt(m: map<Value, seq<Value>>, sections: seq<Record>, x: Value)
    ensures AddSections(m, sections).Ok? <==> forall k :: 0 <= k < |sections| ==> Util.KeyUsable(sections[k], "id")
    ensures AddSections(m, sections).Err? ==>
      exists n :: Util.FirstUnusable(sections, "id", n, AddSections(m, sections).error)
    ensures AddSections(m, sections).Ok? ==>
      (x in AddSections(m, sections).value <==> x in m || exists k :: 0 <= k < |sections| && sections[k]["id"] == x)
    ensures AddSections(m, sections).Ok? ==> Lookup(AddSections(m, sections).value, x) == Lookup(m, x)
  {
    if sections != [] {
      var front := sections[..|sections| - 1];
      AddSectionsAt(m, front, x);
      forall k | 0 <= k < |front|
        ensures front[k] == sections[k]
      {
      }
      if exists k :: 0 <= k < |sections| && "id" in sections[k] && sections[k]["id"] == x {
        var k :| 0 <= k < |sections| && "id" in sections[k] && sections[k]["id"] == x;
        if k < |front| {
          assert front[k]["id"] == x;
        }
      }
      if AddSections(m, front).Err? {
        Util.FirstUnusablePrefix(sections, "id", |front|, AddSections(m, sections).error);
      } else if AddSections(m, sections).Err? {
        assert Util.FirstUnusable(sections, "id", |front|, AddSections(m, sections).error);
      }
    }
  }

  /**
   * What `_update_section_enrollment_cache` collects: every section id a
   * student lists and every id of the sections gets an entry, possibly
   * empty, holding the students' enrollment records as `Enrolled` says.
   */
  lemma SectionEnrollmentIndexAt(students: seq<Record>, sections: seq<Record>, x: Value)
    requires SectionEnrollmentIndex(students, sections).Ok?
    ensures x in SectionEnrollmentIndex(students, sections).value <==>
      (exists k :: 0 <= k < |students| && ListsSection(students[k], x)) ||
      (exists k :: 0 <= k < |sections| && "id" in sections[k] && sections[k]["id"] == x)
    ensures Lookup(SectionEnrollmentIndex(students, sections).value, x) == Enrolled(students, x)
  {
    IndexStudentsKeys(students, x);
    IndexStudentsLookup(students, x);
    AddSectionsAt(IndexStudents(students).value, sections, x);
  }

  // ===========================================================
  // Listing a dict of lists as records
  // ===========================================================

  /** `{'id': k, listKey: v}`. */
  function EntryRecord(k: Value, listKey: string, v: seq<Value>): Record {
    map["id" := k, listKey := List(v)]
  }

  /** `records` lists the entries of `d`, one record each, in some order. */
  ghost predicate ListedAs(d: map<Value, seq<Value>>, listKey: string, records: seq<Record>) {
    && |records| == |d|
    && (forall k :: k in d ==> EntryRecord(k, listKey, d[k]) in records)
    && (forall rec :: rec in records ==> exists k :: k in d && rec == EntryRecord(k, listKey, d[k]))
  }

  /**
   * `[{'id': k, listKey: v} for k, v in d.iteritems()]`: one record per
   * entry, in the dict's iteration order.
   */
  method ListEntries(d: map<Value, seq<Value>>, listKey: string) returns (records: seq<Record>)
    ensures ListedAs(d, listKey, records)
  {
    records := [];
    var todo := d.Keys;
    while todo != {}
      invariant todo <= d.Keys
      invariant |records| + |todo| == |d|
      invariant forall k :: k in d && k !in todo ==> EntryRecord(k, listKey, d[k]) in records
      invariant forall rec :: rec in records ==> exists k :: k in d && rec == EntryRecord(k, listKey, d[k])
      decreases todo
    {
      var k :| k in todo;
      records := records + [EntryRecord(k, listKey, d[k])];
      todo := todo - {k};
    }
  }

  // ===========================================================
  // get_student_enrollments
  // ===========================================================

  /** `[i['id'] for i in items]`: KeyError for a dict without an id, TypeError for a non-dict. */
  function IdsOfItems(items: seq<Value>): (r: Result<seq<Value>>)
    ensures r.Ok? ==> |r.value| == |items|
    ensures r.Ok? ==> forall j :: 0 <= j < |items| ==> items[j].Dict? && "id" in items[j].entries && r.value[j] == items[j].entries["id"]
    ensures r.Ok? <==> forall j :: 0 <= j < |items| ==> items[j].Dict? && "id" in items[j].entries
  {
    if items == [] then Ok([])
    else
      var front :- IdsOfItems(items[..|items| - 1]);
      var item := items[|items| - 1];
      if !item.Dict? then Err(TypeError)
      else
        var id :- Index(item.entries, "id");
        Ok(front + [id])
  }

  /**
   * The ids of the students enrolled in one section record, as the
   * inversion loop reads them: the whole list `[i['id'] for i in
   * student_list['students']]` is built first, then each id is hashed by
   * `student_id not in all_students` (TypeError for a list, set or dict).
   */
  function StudentIdsIn(section: Record): Result<seq<Value>> {
    var students :- Index(section, "students");
    match Iterate(students)
    case Some(items) =>
      var ids :- IdsOfItems(items);
      if AllHashable(ids) then Ok(ids) else Err(TypeError)
    case None => Err(TypeError)
  }

  /**
   * A section's students can be read exactly when it has a `students` list
   * of dicts that all carry an id, and none of these ids is a list, set or
   * dict; then the ids are those of the list, in order.
   */
  lemma StudentIdsInOk(section: Record)
    ensures StudentIdsIn(section).Ok? <==>
      ("students" in section && Iterate(section["students"]).Some?
       && IdsOfItems(Iterate(section["students"]).value).Ok?
       && AllHashable(IdsOfItems(Iterate(section["students"]).value).value))
    ensures StudentIdsIn(section).Ok? ==>
      StudentIdsIn(section).value == IdsOfItems(Iterate(section["students"]).value).value
  {
  }

  /** The students listed under the sections of `done`. */
  ghost predicate EnrolledIn(bySection: map<Value, Record>, done: set<Value>, s: Value) {
    exists x :: x in done && x in bySection && StudentIdsIn(bySection[x]).Ok? && s in StudentIdsIn(bySection[x]).value
  }

  /** How often the ids of section `y` list student `s`; 0 outside `done`. */
  ghost function Occurrences(bySection: map<Value, Record>, done: set<Value>, s: Value, y: Value): nat {
    if y in done && y in bySection && StudentIdsIn(bySection[y]).Ok? then multiset(StudentIdsIn(bySection[y]).value)[s] else 0
  }

  /** Partway through section `x`: the students with a list are those of `done` and of `prefix`. */
  ghost predicate KeysSoFar(bySection: map<Value, Record>, done: set<Value>, all: map<Value, seq<Value>>,
                            prefix: seq<Value>) {
    forall s :: s in all <==> EnrolledIn(bySection, done, s) || s in prefix
  }

  /** Partway through section `x`: each list counts the sections of `done`, and `x` as often as `prefix` has the student. */
  ghost predicate CountsSoFar(bySection: map<Value, Record>, done: set<Value>, all: map<Value, seq<Value>>,
                              x: Value, prefix: seq<Value>) {
    forall s, y :: s in all ==>
      multiset(all[s])[y] == Occurrences(bySection, done, s, y) + (if y == x then multiset(prefix)[s] else 0)
  }

  /**
   * The inversion of the sections in `done`, partway through section `x`:
   * `prefix` is the part of `x`'s students already handled.
   */
  ghost predicate InvertedSoFar(bySection: map<Value, Record>, done: set<Value>, all: map<Value, seq<Value>>,
                                x: Value, prefix: seq<Value>) {
    KeysSoFar(bySection, done, all, prefix) && CountsSoFar(bySection, done, all, x, prefix)
  }

  /** The inversion of exactly the sections in `done`. */
  ghost predicate Inverted(bySection: map<Value, Record>, done: set<Value>, all: map<Value, seq<Value>>) {
    && (forall s :: s in all <==> EnrolledIn(bySection, done, s))
    && (forall s, y :: s in all ==> multiset(all[s])[y] == Occurrences(bySection, done, s, y))
  }

  /** A student listed under no section of `done` occurs in none of them. */
  lemma NotEnrolledNoOccurrences(bySection: map<Value, Record>, done: set<Value>, s: Value)
    requires !EnrolledIn(bySection, done, s)
    ensures forall y :: Occurrences(bySection, done, s, y) == 0
  {
    forall y | y in done && y in bySection && StudentIdsIn(bySection[y]).Ok?
      ensures multiset(StudentIdsIn(bySection[y]).value)[s] == 0
    {
      assert s !in StudentIdsIn(bySection[y]).value;
    }
  }

  /** Appending to the list of the next student `s` keeps the key set. */
  lemma AppendKeys(bySection: map<Value, Record>, done: set<Value>, all: map<Value, seq<Value>>,
                   x: Value, prefix: seq<Value>, s: Value)
    requires KeysSoFar(bySection, done, all, prefix)
    ensures KeysSoFar(bySection, done, all[s := Lookup(all, s) + [x]], prefix + [s])
  {
    assert forall t :: t in prefix + [s] <==> t in prefix || t == s;
  }

  /** Partway through section `x`, the counts hold for every student, listed or not. */
  lemma CountAt(bySection: map<Value, Record>, done: set<Value>, all: map<Value, seq<Value>>,
                x: Value, prefix: seq<Value>, t: Value, y: Value)
    requires KeysSoFar(bySection, done, all, prefix)
    requires CountsSoFar(bySection, done, all, x, prefix)
    ensures multiset(Lookup(all, t))[y] == Occurrences(bySection, done, t, y) + (if y == x then multiset(prefix)[t] else 0)
  {
    if t !in all {
      NotEnrolledNoOccurrences(bySection, done, t);
      assert t !in prefix;
    }
  }

  /** Appending section `x` to the list of the next student `s` keeps the counts. */
  lemma AppendCounts(bySection: map<Value, Record>, done: set<Value>, all: map<Value, seq<Value>>,
                     x: Value, prefix: seq<Value>, s: Value)
    requires KeysSoFar(bySection, done, all, prefix)
    requires CountsSoFar(bySection, done, all, x, prefix)
    ensures CountsSoFar(bySection, done, all[s := Lookup(all, s) + [x]], x, prefix + [s])
  {
    var all' := all[s := Lookup(all, s) + [x]];
    forall t, y | t in all'
      ensures multiset(all'[t])[y] ==
        Occurrences(bySection, done, t, y) + (if y == x then multiset(prefix + [s])[t] else 0)
    {
      CountAt(bySection, done, all, x, prefix, t, y);
      AppendCount(all, x, prefix, s, t, y);
    }
  }

  /** How one append changes the counts: `x` once more in `s`'s list, `s` once more in the prefix. */
  lemma AppendCount(all: map<Value, seq<Value>>, x: Value, prefix: seq<Value>, s: Value, t: Value, y: Value)
    ensures multiset(Lookup(all[s := Lookup(all, s) + [x]], t))[y] ==
      multiset(Lookup(all, t))[y] + (if t == s && y == x then 1 else 0)
    ensures multiset(prefix + [s])[t] == multiset(prefix)[t] + (if t == s then 1 else 0)
  {
    var all' := all[s := Lookup(all, s) + [x]];
    assert multiset(prefix + [s]) == multiset(prefix) + multiset{s};
    if t == s {
      assert Lookup(all', t) == Lookup(all, s) + [x];
      assert multiset(Lookup(all, s) + [x]) == multiset(Lookup(all, s)) + multiset{x};
    } else {
      assert Lookup(all', t) == Lookup(all, t);
    }
  }

  /** A student is listed under the sections of `done` and `x` when listed under `done` or by `x`. */
  lemma EnrolledInAdd(bySection: map<Value, Record>, done: set<Value>, x: Value, s: Value)
    requires x in bySection && StudentIdsIn(bySection[x]).Ok?
    ensures EnrolledIn(bySection, done + {x}, s) <==>
      EnrolledIn(bySection, done, s) || s in StudentIdsIn(bySection[x]).value
  {
    if EnrolledIn(bySection, done + {x}, s) {
      var y :| y in done + {x} && y in bySection && StudentIdsIn(bySection[y]).Ok? && s in StudentIdsIn(bySection[y]).value;
      if y != x {
        assert EnrolledIn(bySection, done, s);
      }
    }
    if EnrolledIn(bySection, done, s) {
      var y :| y in done && y in bySection && StudentIdsIn(bySection[y]).Ok? && s in StudentIdsIn(bySection[y]).value;
      assert y in done + {x};
    }
    if s in StudentIdsIn(bySection[x]).value {
      assert x in done + {x};
    }
  }

  /** Handling every student of section `x` adds `x` to the inverted sections. */
  lemma InvertDone(bySection: map<Value, Record>, done: set<Value>, all: map<Value, seq<Value>>, x: Value)
    requires x in bySection && x !in done && StudentIdsIn(bySection[x]).Ok?
    requires InvertedSoFar(bySection, done, all, x, StudentIdsIn(bySection[x]).value)
    ensures Inverted(bySection, done + {x}, all)
  {
    forall s {
      EnrolledInAdd(bySection, done, x, s);
    }
  }

  /** The inner loop of the inversion: section `x` is appended to the list of each student in `ids`. */
  method AppendSection(allStudents: map<Value, seq<Value>>, x: Value, ids: seq<Value>,
                       ghost bySection: map<Value, Record>, ghost done: set<Value>)
    returns (all: map<Value, seq<Value>>)
    requires InvertedSoFar(bySection, done, allStudents, x, [])
    ensures InvertedSoFar(bySection, done, all, x, ids)
  {
    all := allStudents;
    for j := 0 to |ids|
      invariant InvertedSoFar(bySection, done, all, x, ids[..j])
    {
      var studentId := ids[j];
      AppendKeys(bySection, done, all, x, ids[..j], studentId);
      AppendCounts(bySection, done, all, x, ids[..j], studentId);
      assert ids[..j + 1] == ids[..j] + [studentId];
      if studentId !in all {
        all := all[studentId := []];
      }
      all := all[studentId := all[studentId] + [x]];
    }
    assert ids[..|ids|] == ids;
  }

  /**
   * The inversion loop of `get_student_enrollments`: for every section and
   * every student id listed in it, the section id is appended to the
   * student's list. A student's list names a section as often as the
   * section lists the student, and only sections of the input; every
   * student of some section gets a list. A section whose students cannot be
   * read raises.
   */
  method InvertEnrollments(bySection: map<Value, Record>) returns (r: Result<map<Value, seq<Value>>>)
    ensures r.Ok? <==> forall x :: x in bySection ==> StudentIdsIn(bySection[x]).Ok?
    ensures r.Err? ==> exists x :: x in bySection && StudentIdsIn(bySection[x]) == Err(r.error)
    ensures r.Ok? ==> Inverted(bySection, bySection.Keys, r.value)
  {
    var allStudents: map<Value, seq<Value>> := map[];
    var todo := bySection.Keys;
    while todo != {}
      invariant todo <= bySection.Keys
      invariant forall x :: x in bySection && x !in todo ==> StudentIdsIn(bySection[x]).Ok?
      invariant Inverted(bySection, bySection.Keys - todo, allStudents)
      decreases todo
    {
      var sectionId :| sectionId in todo;
      var ids := StudentIdsIn(bySection[sectionId]);
      if ids.Err? {
        return Err(ids.error);
      }
      ghost var done := bySection.Keys - todo;
      allStudents := AppendSection(allStudents, sectionId, ids.value, bySection, done);
      InvertDone(bySection, done, allStudents, sectionId);
      assert bySection.Keys - (todo - {sectionId}) == done + {sectionId};
      todo := todo - {sectionId};
    }
    assert bySection.Keys - todo == bySection.Keys;
    r := Ok(allStudents);
  }

  /**
   * What the inversion means: section `x` is in student `s`'s list exactly
   * when `x` is a section of the input that lists `s`; so every listed
   * section is a key of the input.
   */
  lemma InvertedMembership(bySection: map<Value, Record>, all: map<Value, seq<Value>>, s: Value, x: Value)
    requires Readable(bySection) && Inverted(bySection, bySection.Keys, all)
    ensures (s in all && x in all[s]) <==> x in bySection && s in StudentIdsIn(bySection[x]).value
  {
    if x in bySection && s in StudentIdsIn(bySection[x]).value {
      assert EnrolledIn(bySection, bySection.Keys, s);
      assert multiset(all[s])[x] == multiset(StudentIdsIn(bySection[x]).value)[s];
    }
    if s in all && x in all[s] {
      assert multiset(all[s])[x] > 0;
    }
  }

  /** What `get_section_enrollments` returns: a list of section records, or a dict of them by id. */
  datatype SectionEnrollments = EnrollmentList(sections: seq<Record>) | EnrollmentMap(bySection: map<Value, Record>)

  /** What `get_student_enrollments` returns: a dict by student id, or a list of `{id, sections}` records. */
  datatype StudentEnrollments = ByStudent(byStudent: map<Value, seq<Value>>) | StudentList(records: seq<Record>)

  /** The section records by id: a list is first turned into a dict with `dict_list_to_dict`. */
  function BySection(enrollments: SectionEnrollments): Result<map<Value, Record>> {
    match enrollments
    case EnrollmentList(sections) => Util.DictListToDict(sections, "id")
    case EnrollmentMap(bySection) => Ok(bySection)
  }

  /** Every section's students can be read. */
  ghost predicate Readable(bySection: map<Value, Record>) {
    forall x :: x in bySection ==> StudentIdsIn(bySection[x]).Ok?
  }

  /**
   * `get_student_enrollments(**kwargs)` after fetching the section
   * enrollments: the inverted enrollment as a dict when `by_id is True`,
   * otherwise listed as `{id, sections}` records.
   */
  method GetStudentEnrollments(enrollments: SectionEnrollments, byId: Value) returns (r: Result<StudentEnrollments>)
    ensures r.Ok? <==> BySection(enrollments).Ok? && Readable(BySection(enrollments).value)
    ensures BySection(enrollments).Err? ==> r == Err(BySection(enrollments).error)
    ensures BySection(enrollments).Ok? && r.Err? ==>
      exists x :: x in BySection(enrollments).value && StudentIdsIn(BySection(enrollments).value[x]) == Err(r.error)
    ensures r.Ok? ==> (r.value.ByStudent? <==> byId == Bool(true))
    ensures r.Ok? && r.value.ByStudent? ==>
      Inverted(BySection(enrollments).value, BySection(enrollments).value.Keys, r.value.byStudent)
    ensures r.Ok? && r.value.StudentList? ==>
      exists inv :: Inverted(BySection(enrollments).value, BySection(enrollments).value.Keys, inv)
        && ListedAs(inv, "sections", r.value.records)
  {
    var bySection :- BySection(enrollments);
    var allStudents :- InvertEnrollments(bySection);
    if byId == Bool(true) {
      return Ok(ByStudent(allStudents));
    }
    var studentList := ListEntries(allStudents, "sections");
    r := Ok(StudentList(studentList));
  }

  /**
   * `_update_section_enrollment_cache` once it decides to refresh: the
   * `{id, students}` records it adds to the section enrollment cache, one
   * per entry of `SectionEnrollmentIndex`.
   */
  method SectionEnrollmentRecords(students: seq<Record>, sections: seq<Record>) returns (r: Result<seq<Record>>)
    ensures r.Ok? <==> SectionEnrollmentIndex(students, sections).Ok?
    ensures r.Err? ==> r.error == SectionEnrollmentIndex(students, sections).error
    ensures r.Ok? ==> ListedAs(SectionEnrollmentIndex(students, sections).value, "students", r.value)
  {
    var enrollments :- CollectSectionEnrollments(students, sections);
    var records := ListEntries(enrollments, "students");
    r := Ok(records);
  }
}
