/**
 * Matching a section (`match_section` in modules/qs/qs_api.py): the
 * identifier is normalised into a target section dict, every candidate
 * section is tagged with the set of its teachers' ids and kept unless an
 * enabled `match_*` field of the target disagrees with it, and the number
 * of kept candidates decides the outcome.
 *
 * The section looked up for a numeric identifier and the candidate pool,
 * which the wrapper fetches through its caches, are inputs.
 */
module QsSections {
  import opened Values
  import Util
  import QsEnrollment
  import RestFoundation

  // ===========================================================
  // Teachers and the target section
  // ===========================================================

  /** The elements of a sequence, as a set. */
  function Elements(s: seq<Value>): (r: set<Value>)
    ensures forall x :: x in r <==> x in s
  {
    set x | x in s
  }

  /**
   * `set([i['id'] for i in section['teachers']])`: KeyError without teachers
   * or for a teacher without an id, TypeError for a teacher that is not a
   * dict, an id that cannot go in a set, or a `teachers` value whose elements
   * are not dicts (a non-empty string, dict or set) or that cannot be iterated.
   */
  function TeacherIds(section: Record): (r: Result<set<Value>>)
    ensures "teachers" !in section ==> r == Err(KeyError)
    ensures "teachers" in section && !section["teachers"].List? && !section["teachers"].Str? ==>
      (r.Ok? <==> section["teachers"] == Dict(map[]) || section["teachers"] == SetOf({}))
    ensures r.Ok? && "teachers" in section && section["teachers"].Str? ==> r.value == {}
  {
    var teachers :- Index(section, "teachers");
    if teachers == Dict(map[]) || teachers == SetOf({}) then Ok({})
    else if teachers.Dict? || teachers.SetOf? then Err(TypeError)
    else match QsEnrollment.Iterate(teachers)
      case Some(items) =>
        var ids :- QsEnrollment.IdsOfItems(items);
        if forall j :: 0 <= j < |ids| ==> Hashable(ids[j]) then Ok(Elements(ids)) else Err(TypeError)
      case None => Err(TypeError)
  }

  /** For a list of teachers: the ids are readable exactly when every teacher is a dict with a hashable id, and then they are those ids. */
  lemma TeacherIdsOfList(section: Record)
    requires "teachers" in section && section["teachers"].List?
    ensures TeacherIds(section).Ok? <==> forall j :: 0 <= j < |section["teachers"].items| ==>
      section["teachers"].items[j].Dict? && "id" in section["teachers"].items[j].entries &&
      Hashable(section["teachers"].items[j].entries["id"])
    ensures TeacherIds(section).Ok? ==>
      forall x :: x in TeacherIds(section).value <==>
        (exists j :: 0 <= j < |section["teachers"].items| && section["teachers"].items[j].entries["id"] == x)
  {
    var items := section["teachers"].items;
    if items != [] {
      var ids := QsEnrollment.IdsOfItems(items);
      if ids.Ok? {
        assert forall j :: 0 <= j < |items| ==> ids.value[j] == items[j].entries["id"];
      }
    }
  }

  /** The candidate after `candidate['teacherIds'] = teacher_ids` (unchanged when the ids cannot be read). */
  function Tagged(section: Record): Record {
    match TeacherIds(section)
    case Ok(ids) => section["teacherIds" := SetOf(ids)]
    case Err(_) => section
  }

  /** Tagging reads only the teachers, so tagging twice is tagging once. */
  lemma TaggedIdempotent(section: Record)
    ensures TeacherIds(Tagged(section)) == TeacherIds(section)
    ensures Tagged(Tagged(section)) == Tagged(section)
  {
    if "teachers" in section {
      assert Tagged(section)["teachers"] == section["teachers"];
    }
  }

  /** A candidate met again later in the pool is already tagged, and tagging it again changes nothing. */
  lemma Retag(section: Record, current: Record)
    requires current == section || current == Tagged(section)
    ensures TeacherIds(current) == TeacherIds(section)
    ensures Tagged(current) == Tagged(section)
  {
    TaggedIdempotent(section);
  }

  /** `s.isdigit()`: at least one character, and all of them digits. */
  predicate IsDigitString(s: string) {
    s != "" && forall j :: 0 <= j < |s| ==> IsDigit(s[j])
  }

  /**
   * The target section dict of `match_section`. An id (an int or a
   * non-empty string) that is all digits names a section, which is looked up
   * (`lookedUp`) and tagged with its teachers' ids; any other id is a section
   * name; a dict is the target itself; anything else raises TypeError.
   */
  function SectionDictFor(identifier: Value, lookedUp: Record): (r: Result<Record>)
    ensures identifier.Dict? ==> r == Ok(identifier.entries)
    ensures !Util.IsIdValue(identifier) && !identifier.Dict? ==> r == Err(TypeError)
    ensures Util.IsIdValue(identifier) && !IsDigitString(Util.StrOf(identifier)) ==>
      r == Ok(map["sectionName" := Str(Util.StrOf(identifier))])
    ensures Util.IsIdValue(identifier) && IsDigitString(Util.StrOf(identifier)) ==>
      (r.Ok? <==> TeacherIds(lookedUp).Ok?) && (r.Ok? ==> r.value == Tagged(lookedUp))
  {
    if Util.IsValidId(identifier, Bool(true)) == Ok(true) then
      var cleaned := Util.CleanId(identifier).value;
      if IsDigitString(cleaned) then
        var teacherIds :- TeacherIds(lookedUp);
        Ok(lookedUp["teacherIds" := SetOf(teacherIds)])
      else
        Util.CleanIdIdempotent(identifier);
        Ok(map["sectionName" := Str(Util.CleanId(Str(cleaned)).value)])
    else if identifier.Dict? then Ok(identifier.entries)
    else Err(TypeError)
  }

  /** A negative id is not all digits, so it is taken as a section name. */
  lemma NegativeIdIsName(lookedUp: Record)
    ensures SectionDictFor(Int(-5), lookedUp) == Ok(map["sectionName" := Str("-5")])
  {
    assert IntToString(-5) == "-5";
    assert !IsDigit('-');
  }

  // ===========================================================
  // The filter
  // ===========================================================

  /** The `match_*` arguments, in the order the filter tests them. */
  datatype MatchFlags = MatchFlags(name: Value, code: Value, classId: Value, className: Value, teachers: Value)

  /** The defaults: everything but the class id is matched. */
  const DefaultFlags: MatchFlags := MatchFlags(Bool(true), Bool(true), Bool(false), Bool(true), Bool(true))

  /** Each flag with the key it guards. */
  function Guards(flags: MatchFlags): seq<(Value, string)> {
    [(flags.name, "sectionName"), (flags.code, "sectionCode"), (flags.classId, "classId"),
     (flags.className, "className"), (flags.teachers, "teacherIds")]
  }

  /**
   * `dealbreaker(should_match, key)`: only a flag that is not exactly False,
   * for a key the target has, can reject, and it rejects when the candidate's
   * value differs (a missing value counts as None).
   */
  predicate Dealbreaker(shouldMatch: Value, key: string, target: Record, candidate: Record) {
    if shouldMatch == Bool(false) then false
    else if key !in target then false
    else Get(target, key) != Get(candidate, key)
  }

  /** The candidate survives all five dealbreakers. */
  predicate Keep(target: Record, candidate: Record, flags: MatchFlags) {
    && !Dealbreaker(flags.name, "sectionName", target, candidate)
    && !Dealbreaker(flags.code, "sectionCode", target, candidate)
    && !Dealbreaker(flags.classId, "classId", target, candidate)
    && !Dealbreaker(flags.className, "className", target, candidate)
    && !Dealbreaker(flags.teachers, "teacherIds", target, candidate)
  }

  /**
   * A candidate is kept exactly when, for every enabled flag whose key the
   * target has, the candidate has the target's value (or lacks the key while
   * the target holds None).
   */
  lemma KeepIff(target: Record, candidate: Record, flags: MatchFlags)
    ensures Keep(target, candidate, flags) <==>
      forall g :: g in Guards(flags) && g.0 != Bool(false) && g.1 in target ==> Get(candidate, g.1) == target[g.1]
  {
    var gs := Guards(flags);
    if !Keep(target, candidate, flags) {
      if Dealbreaker(flags.name, "sectionName", target, candidate) { assert gs[0] in gs; }
      else if Dealbreaker(flags.code, "sectionCode", target, candidate) { assert gs[1] in gs; }
      else if Dealbreaker(flags.classId, "classId", target, candidate) { assert gs[2] in gs; }
      else if Dealbreaker(flags.className, "className", target, candidate) { assert gs[3] in gs; }
      else { assert gs[4] in gs; }
    }
  }

  /** A target key the flags do not guard, or a key the target lacks, never excludes a candidate. */
  lemma DroppingAKeyKeepsMore(target: Record, candidate: Record, flags: MatchFlags, key: string)
    requires Keep(target, candidate, flags)
    ensures Keep(target - {key}, candidate, flags)
  {
  }

  /** Disabling a flag never excludes a candidate. */
  lemma DisablingKeepsMore(target: Record, candidate: Record, flags: MatchFlags)
    requires Keep(target, candidate, flags)
    ensures Keep(target, candidate, flags.(name := Bool(false)))
    ensures Keep(target, candidate, flags.(code := Bool(false)))
    ensures Keep(target, candidate, flags.(classId := Bool(false)))
    ensures Keep(target, candidate, flags.(className := Bool(false)))
    ensures Keep(target, candidate, flags.(teachers := Bool(false)))
  {
  }

  /** With the default flags the class id never matters. */
  lemma DefaultIgnoresClassId(target: Record, candidate: Record, classId: Value)
    ensures Keep(target, candidate, DefaultFlags) == Keep(target, candidate["classId" := classId], DefaultFlags)
  {
  }

  /** The candidates of `pool` kept, in pool order; `tagged[k]` is candidate k's dict once tagged. */
  function Selected(target: Record, flags: MatchFlags, pool: seq<Util.PyDict>, tagged: seq<Record>): (r: seq<Util.PyDict>)
    requires |pool| == |tagged|
    ensures forall d :: d in r ==> d in pool
    ensures |r| <= |pool|
  {
    if pool == [] then []
    else
      var n := |pool| - 1;
      Selected(target, flags, pool[..n], tagged[..n]) + (if Keep(target, tagged[n], flags) then [pool[n]] else [])
  }

  /**
   * Selection is exact: a candidate is selected exactly when one of its
   * occurrences in the pool survives the dealbreakers.
   */
  lemma {:induction false} SelectedIff(target: Record, flags: MatchFlags, pool: seq<Util.PyDict>, tagged: seq<Record>, d: Util.PyDict)
    requires |pool| == |tagged|
    ensures d in Selected(target, flags, pool, tagged) <==>
      exists k :: 0 <= k < |pool| && pool[k] == d && Keep(target, tagged[k], flags)
  {
    if pool != [] {
      var n := |pool| - 1;
      SelectedIff(target, flags, pool[..n], tagged[..n], d);
      if exists k :: 0 <= k < |pool| && pool[k] == d && Keep(target, tagged[k], flags) {
        var k :| 0 <= k < |pool| && pool[k] == d && Keep(target, tagged[k], flags);
        if k < n {
          assert pool[..n][k] == d && tagged[..n][k] == tagged[k];
        }
      }
    }
  }

  /** Selecting from one more candidate appends it when it is kept. */
  lemma SelectedSnoc(target: Record, flags: MatchFlags, pool: seq<Util.PyDict>, tagged: seq<Record>, i: nat)
    requires i < |pool| == |tagged|
    ensures Selected(target, flags, pool[..i + 1], tagged[..i + 1])
      == Selected(target, flags, pool[..i], tagged[..i]) + (if Keep(target, tagged[i], flags) then [pool[i]] else [])
  {
    assert pool[..i + 1][..i] == pool[..i] && tagged[..i + 1][..i] == tagged[..i];
  }

  /** A pool in which nothing survives selects nothing. */
  lemma {:induction false} SelectedEmpty(target: Record, flags: MatchFlags, pool: seq<Util.PyDict>, tagged: seq<Record>)
    requires |pool| == |tagged|
    requires forall k :: 0 <= k < |tagged| ==> !Keep(target, tagged[k], flags)
    ensures Selected(target, flags, pool, tagged) == []
  {
    if pool != [] {
      var n := |pool| - 1;
      SelectedEmpty(target, flags, pool[..n], tagged[..n]);
    }
  }

  /** The candidates' dicts. */
  ghost function EntriesOf(pool: seq<Util.PyDict>): (r: seq<Record>)
    reads set d | d in pool
    ensures |r| == |pool| && forall k :: 0 <= k < |pool| ==> r[k] == pool[k].entries
  {
    seq(|pool|, k requires 0 <= k < |pool| reads pool => pool[k].entries)
  }

  /** Each dict tagged with its teachers' ids. */
  function TaggedAll(entries: seq<Record>): (r: seq<Record>)
    ensures |r| == |entries| && forall k :: 0 <= k < |entries| ==> r[k] == Tagged(entries[k])
  {
    seq(|entries|, k requires 0 <= k < |entries| => Tagged(entries[k]))
  }

  /** `candidate['teacherIds'] = set([i['id'] for i in candidate['teachers']])`. */
  method TagCandidate(candidate: Util.PyDict) returns (r: Result<()>)
    modifies candidate`entries
    ensures r.Ok? <==> TeacherIds(old(candidate.entries)).Ok?
    ensures r.Ok? ==> candidate.entries == Tagged(old(candidate.entries))
    ensures r.Err? ==> candidate.entries == old(candidate.entries) && r.error == TeacherIds(old(candidate.entries)).error
  {
    var teacherIds := TeacherIds(candidate.entries);
    if teacherIds.Err? {
      return Err(teacherIds.error);
    }
    candidate.entries := candidate.entries["teacherIds" := SetOf(teacherIds.value)];
    r := Ok(());
  }

  /**
   * The search loop stopped at candidate `n`, whose teachers cannot be read
   * (raising `e`), after every candidate before it was read and tagged. A
   * candidate after it is unchanged, or tagged already when its dict also
   * occurs before `n`.
   */
  ghost predicate StoppedAt(olds: seq<Record>, now: seq<Record>, n: int, e: Error)
    requires |now| == |olds|
  {
    && 0 <= n < |olds| && TeacherIds(olds[n]) == Err(e)
    && (forall k :: 0 <= k < n ==> TeacherIds(olds[k]).Ok? && now[k] == Tagged(olds[k]))
    && (forall k :: n <= k < |olds| ==> now[k] == olds[k] || now[k] == Tagged(olds[k]))
  }

  /**
   * The search loop's progress after `i` candidates: those before `i` were
   * read and tagged; a later one is unchanged or, when its dict occurs
   * earlier in the pool, tagged already.
   */
  ghost predicate TaggedUpTo(pool: seq<Util.PyDict>, olds: seq<Record>, i: int)
    reads set d | d in pool
    requires |olds| == |pool|
  {
    && (forall k :: 0 <= k < i && k < |pool| ==> TeacherIds(olds[k]).Ok? && pool[k].entries == Tagged(olds[k]))
    && (forall k :: 0 <= i <= k < |pool| ==> pool[k].entries == olds[k] || pool[k].entries == Tagged(olds[k]))
  }

  /** One turn of the search loop: candidate `i` is tagged, or the loop stops at it. */
  method TagStep(pool: seq<Util.PyDict>, i: nat, ghost olds: seq<Record>) returns (r: Result<()>)
    requires i < |pool| == |olds|
    requires forall k :: 0 <= k < |pool| && pool[k] == pool[i] ==> olds[k] == olds[i]
    requires TaggedUpTo(pool, olds, i)
    modifies pool[i]
    ensures r.Ok? ==> TaggedUpTo(pool, olds, i + 1) && pool[i].entries == Tagged(olds[i])
    ensures r.Err? ==> StoppedAt(olds, EntriesOf(pool), i, r.error)
  {
    var candidate := pool[i];
    Retag(olds[i], candidate.entries);
    r := TagCandidate(candidate);
    if r.Ok? {
      forall k | 0 <= k < |pool| && k != i && pool[k] == candidate
        ensures olds[k] == olds[i]
      {
      }
    }
  }

  /**
   * The search loop of `match_section`: each candidate in turn gets
   * `teacherIds`, the set of its teachers' ids, written into it, and is kept
   * when no dealbreaker rejects it. A candidate whose teachers cannot be
   * read raises its error, after the candidates before it were tagged.
   */
  method FilterCandidates(target: Record, pool: seq<Util.PyDict>, flags: MatchFlags) returns (r: Result<seq<Util.PyDict>>)
    modifies pool
    ensures r.Ok? <==> forall k :: 0 <= k < |pool| ==> TeacherIds(old(EntriesOf(pool))[k]).Ok?
    ensures r.Ok? ==> EntriesOf(pool) == TaggedAll(old(EntriesOf(pool)))
    ensures r.Err? ==> exists n :: StoppedAt(old(EntriesOf(pool)), EntriesOf(pool), n, r.error)
    ensures r.Ok? ==> r.value == Selected(target, flags, pool, TaggedAll(old(EntriesOf(pool))))
    ensures r.Ok? ==> forall j :: 0 <= j < |r.value| ==> r.value[j] in pool
  {
    ghost var olds := old(EntriesOf(pool));
    ghost var tagged := TaggedAll(olds);
    var matches: seq<Util.PyDict> := [];
    for i := 0 to |pool|
      invariant TaggedUpTo(pool, olds, i)
      invariant matches == Selected(target, flags, pool[..i], tagged[..i])
    {
      var tagging := TagStep(pool, i, olds);
      if tagging.Err? {
        return Err(tagging.error);
      }
      SelectedSnoc(target, flags, pool, tagged, i);
      if Keep(target, pool[i].entries, flags) {
        matches := matches + [pool[i]];
      }
    }
    assert pool[..|pool|] == pool && tagged[..|pool|] == tagged;
    r := Ok(matches);
  }

  // ===========================================================
  // The outcome
  // ===========================================================

  /** What `match_section` does once the matches are known. */
  datatype Outcome = ReturnFalse | ReturnAll | ReturnOne | LogFailure(level: RestFoundation.LogLevel)

  /**
   * The outcome for `count` matches: none is "FALSE" when failing silently,
   * any number is the list when several are allowed, exactly one is that
   * match, and everything else raises LookupError, which is logged
   * (critically only when `critical` is exactly True) and gives None.
   */
  function ChooseOutcome(count: nat, allowMultiple: Value, failSilent: Value, critical: Value): (o: Outcome)
    ensures o == ReturnFalse <==> count == 0 && Truthy(failSilent)
    ensures o == ReturnAll <==> count > 0 && Truthy(allowMultiple)
    ensures o == ReturnOne <==> count == 1 && !Truthy(allowMultiple)
    ensures o.LogFailure? <==> (count == 0 && !Truthy(failSilent)) || (count > 1 && !Truthy(allowMultiple))
    ensures o.LogFailure? ==> (o.level == RestFoundation.CriticalLog <==> critical == Bool(true))
    ensures o.LogFailure? ==> (o.level == RestFoundation.ErrorLog <==> critical != Bool(true))
  {
    var failure := LogFailure(if critical == Bool(true) then RestFoundation.CriticalLog else RestFoundation.ErrorLog);
    if count == 0 then
      if !Truthy(failSilent) then failure else ReturnFalse
    else if Truthy(allowMultiple) then ReturnAll
    else if count == 1 then ReturnOne
    else failure
  }

  /** The value `match_section` returns; `Failed` is the None returned after the failure was logged. */
  datatype MatchResult = NotFound | Sections(sections: seq<Util.PyDict>) | OneSection(section: Util.PyDict) | Failed(level: RestFoundation.LogLevel)

  /** The return value for an outcome and the matches. */
  function Answer(o: Outcome, matches: seq<Util.PyDict>): (r: MatchResult)
    requires o == ReturnOne ==> |matches| == 1
  {
    match o
    case ReturnFalse => NotFound
    case ReturnAll => Sections(matches)
    case ReturnOne => OneSection(matches[0])
    case LogFailure(level) => Failed(level)
  }

  /**
   * `match_section` on a known target lookup and candidate pool: the
   * identifier becomes the target, every candidate is tagged in place with
   * its teachers' ids, the candidates no dealbreaker rejects are the
   * matches, their sets become lists in place, and the number of matches
   * decides the answer.
   */
  method MatchSection(identifier: Value, lookedUp: Record, pool: seq<Util.PyDict>, flags: MatchFlags,
                      allowMultiple: Value, failSilent: Value, critical: Value) returns (r: Result<MatchResult>)
    modifies pool
    ensures SectionDictFor(identifier, lookedUp).Err? ==>
      r == Err(SectionDictFor(identifier, lookedUp).error) && forall k :: 0 <= k < |pool| ==> pool[k].entries == old(pool[k].entries)
    ensures SectionDictFor(identifier, lookedUp).Ok? ==>
      (r.Ok? <==> forall k :: 0 <= k < |pool| ==> TeacherIds(old(pool[k].entries)).Ok?)
    ensures SectionDictFor(identifier, lookedUp).Ok? && r.Err? ==>
      exists n :: StoppedAt(old(EntriesOf(pool)), EntriesOf(pool), n, r.error)
    ensures r.Ok? ==>
      var matches := Selected(SectionDictFor(identifier, lookedUp).value, flags, pool, TaggedAll(old(EntriesOf(pool))));
      var o := ChooseOutcome(|matches|, allowMultiple, failSilent, critical);
      (o == ReturnOne ==> |matches| == 1) && r.value == Answer(o, matches)
    ensures r.Ok? ==>
      var matches := Selected(SectionDictFor(identifier, lookedUp).value, flags, pool, TaggedAll(old(EntriesOf(pool))));
      forall k :: 0 <= k < |pool| ==>
        (pool[k] in matches ==> Util.Converted(Tagged(old(pool[k].entries)), pool[k].entries)) &&
        (pool[k] !in matches ==> pool[k].entries == Tagged(old(pool[k].entries)))
  {
    var target := SectionDictFor(identifier, lookedUp);
    if target.Err? {
      return Err(target.error);
    }
    var filtered := FilterCandidates(target.value, pool, flags);
    if filtered.Err? {
      return Err(filtered.error);
    }
    var matches := filtered.value;
    ghost var before := EntriesOf(pool);
    Util.SetsToLists(matches);
    forall k | 0 <= k < |pool| && pool[k] !in matches
      ensures pool[k].entries == before[k]
    {
    }
    var o := ChooseOutcome(|matches|, allowMultiple, failSilent, critical);
    r := Ok(Answer(o, matches));
  }
}
