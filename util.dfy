/**
 * The dictionary, identifier and phone helpers of the `qs` package
 * (modules/qs/util.py).
 */
module Util {
  import opened Values

  // ===========================================================
  // merge: right-biased union of any number of dicts
  // ===========================================================

  /** The union of `args`, where a key's value comes from the right-most map holding it. */
  function MergeAll<K, V>(args: seq<map<K, V>>): map<K, V>
    decreases |args|
  {
    if args == [] then map[] else MergeAll(args[..|args| - 1]) + args[|args| - 1]
  }

  /** `dict(pairs)`: a later pair for the same key replaces an earlier one. */
  function DictOfPairs<K, V>(pairs: seq<(K, V)>): map<K, V>
    decreases |pairs|
  {
    if pairs == [] then map[]
    else
      var last := pairs[|pairs| - 1];
      DictOfPairs(pairs[..|pairs| - 1])[last.0 := last.1]
  }

  /**
   * `merge(*args)`: collects every (key, value) item of every argument, left
   * to right, into one list of pairs and turns that list into a dict.
   */
  method Merge<K, V>(args: seq<map<K, V>>) returns (merged: map<K, V>)
    ensures merged == MergeAll(args)
  {
    var pairs: seq<(K, V)> := [];
    for i := 0 to |args|
      invariant DictOfPairs(pairs) == MergeAll(args[..i])
    {
      var unmerged := args[i];
      var todo := unmerged.Keys;
      while todo != {}
        invariant todo <= unmerged.Keys
        invariant DictOfPairs(pairs) ==
          MergeAll(args[..i]) + map k | k in unmerged.Keys - todo :: unmerged[k]
        decreases todo
      {
        var k :| k in todo;
        assert (pairs + [(k, unmerged[k])])[..|pairs|] == pairs;
        pairs := pairs + [(k, unmerged[k])];
        todo := todo - {k};
      }
      assert (map k | k in unmerged.Keys - todo :: unmerged[k]) == unmerged;
      assert args[..i + 1][..i] == args[..i];
    }
    assert args[..|args|] == args;
    merged := DictOfPairs(pairs);
  }

  /** A key is in the merge exactly when some argument holds it. */
  lemma {:induction false} MergeAllKeys<K, V>(args: seq<map<K, V>>, k: K)
    ensures k in MergeAll(args) <==> exists i :: 0 <= i < |args| && k in args[i]
    decreases |args|
  {
    if args != [] {
      var front := args[..|args| - 1];
      MergeAllKeys(front, k);
      if k in MergeAll(args) && k !in args[|args| - 1] {
        var i :| 0 <= i < |front| && k in front[i];
        assert k in args[i];
      }
      if exists i :: 0 <= i < |args| && k in args[i] {
        var i :| 0 <= i < |args| && k in args[i];
        if i < |args| - 1 {
          assert k in front[i];
        }
      }
    }
  }

  /** A key's merged value is the one in the right-most argument holding it. */
  lemma {:induction false} MergeAllValue<K, V>(args: seq<map<K, V>>, j: int, k: K)
    requires 0 <= j < |args| && k in args[j]
    requires forall i :: j < i < |args| ==> k !in args[i]
    ensures k in MergeAll(args) && MergeAll(args)[k] == args[j][k]
    decreases |args|
  {
    if j < |args| - 1 {
      var front := args[..|args| - 1];
      assert front[j] == args[j];
      MergeAllValue(front, j, k);
    }
  }

  /** `merge(base, overrides)`: every key of either map; an override wins over its base value. */
  ghost predicate MergedOver<K, V>(r: map<K, V>, base: map<K, V>, overrides: map<K, V>) {
    && r.Keys == base.Keys + overrides.Keys
    && (forall k :: k in overrides ==> r[k] == overrides[k])
    && (forall k :: k in base && k !in overrides ==> r[k] == base[k])
  }

  /** Merging two dicts is the right-biased union of the two. */
  lemma MergeAllTwo<K, V>(base: map<K, V>, overrides: map<K, V>)
    ensures MergeAll([base, overrides]) == base + overrides
    ensures MergedOver(MergeAll([base, overrides]), base, overrides)
  {
    assert [base, overrides][..1] == [base];
    assert [base][..0] == [];
    assert MergeAll([base]) == base;
  }

  // ===========================================================
  // dict_list_to_dict / dict_to_dict_list
  // ===========================================================

  /** The set of ids carried by the records of `dictList` under `idKey`. */
  function IdsOf(dictList: seq<Record>, idKey: string): set<Value> {
    set r | r in dictList && idKey in r :: r[idKey]
  }

  /** No two records of `dictList` carry the same id. */
  predicate UniqueIds(dictList: seq<Record>, idKey: string) {
    forall i, j :: 0 <= i < j < |dictList| && idKey in dictList[i] && idKey in dictList[j] ==>
      dictList[i][idKey] != dictList[j][idKey]
  }

  /** `rec[key]` exists and can be used as a dict key. */
  predicate KeyUsable(rec: Record, key: string) {
    key in rec && Hashable(rec[key])
  }

  /** What using `rec[key]` as a dict key raises when it cannot be. */
  function KeyFailure(rec: Record, key: string): Error {
    if key !in rec then KeyError else TypeError
  }

  /**
   * The first record of `dictList` whose `key` cannot be a dict key is at
   * `n`, and `e` is what it raises.
   */
  predicate FirstUnusable(dictList: seq<Record>, key: string, n: int, e: Error) {
    && 0 <= n < |dictList|
    && !KeyUsable(dictList[n], key)
    && e == KeyFailure(dictList[n], key)
    && forall i :: 0 <= i < n ==> KeyUsable(dictList[i], key)
  }

  /**
   * `dict_list_to_dict(dict_list, id_key)`: `{i[id_key]: i for i in dict_list}`.
   * A record without `id_key` raises KeyError, one whose id is a list, set
   * or dict raises TypeError; the first such record decides.
   */
  function DictListToDict(dictList: seq<Record>, idKey: string): (r: Result<map<Value, Record>>)
    ensures r.Ok? <==> forall i :: 0 <= i < |dictList| ==> KeyUsable(dictList[i], idKey)
    ensures r.Err? ==> exists n :: FirstUnusable(dictList, idKey, n, r.error)
    ensures r.Ok? ==> r.value.Keys == IdsOf(dictList, idKey)
    ensures r.Ok? ==> forall k :: k in r.value ==> idKey in r.value[k] && r.value[k][idKey] == k
    ensures r.Ok? ==> forall k :: k in r.value ==> r.value[k] in dictList
    decreases |dictList|
  {
    if dictList == [] then Ok(map[])
    else
      var front := dictList[..|dictList| - 1];
      var last := dictList[|dictList| - 1];
      assert dictList == front + [last];
      var rest := DictListToDict(front, idKey);
      if rest.Err? then
        FirstUnusablePrefix(dictList, idKey, |dictList| - 1, rest.error);
        Err(rest.error)
      else if !KeyUsable(last, idKey) then
        assert FirstUnusable(dictList, idKey, |dictList| - 1, KeyFailure(last, idKey));
        Err(KeyFailure(last, idKey))
      else Ok(rest.value[last[idKey] := last])
  }

  /** The first unusable record of a prefix is the first of the whole list. */
  lemma FirstUnusablePrefix(dictList: seq<Record>, key: string, k: int, e: Error)
    requires 0 <= k <= |dictList|
    requires exists n :: FirstUnusable(dictList[..k], key, n, e)
    ensures exists n :: FirstUnusable(dictList, key, n, e)
  {
    var n :| FirstUnusable(dictList[..k], key, n, e);
    assert FirstUnusable(dictList, key, n, e);
  }

  /** When ids repeat, the later record in the list wins. */
  lemma {:induction false} DictListToDictLaterWins(dictList: seq<Record>, idKey: string, j: int)
    requires DictListToDict(dictList, idKey).Ok?
    requires 0 <= j < |dictList|
    requires forall i :: j < i < |dictList| ==> dictList[i][idKey] != dictList[j][idKey]
    ensures DictListToDict(dictList, idKey).value[dictList[j][idKey]] == dictList[j]
    decreases |dictList|
  {
    if j < |dictList| - 1 {
      var front := dictList[..|dictList| - 1];
      assert front[j] == dictList[j];
      DictListToDictLaterWins(front, idKey, j);
    }
  }

  /** The key a dict's iteration visits first; Python 2 leaves the choice unspecified. */
  ghost function FirstKey<K, V>(m: map<K, V>): (k: K)
    requires m != map[]
    ensures k in m
  {
    var k :| k in m; k
  }

  /**
   * `dict_to_dict_list(large_dict)`: the values of the dict, one per key, in
   * the dict's (unspecified) iteration order.
   */
  ghost function DictToDictList<K, V>(largeDict: map<K, V>): seq<V>
    decreases largeDict.Keys
  {
    if largeDict == map[] then []
    else
      var k := FirstKey(largeDict);
      [largeDict[k]] + DictToDictList(largeDict - {k})
  }

  /** `dict_to_dict_list` yields one value per key. */
  lemma {:induction false} DictToDictListLength<K, V>(m: map<K, V>)
    ensures |DictToDictList(m)| == |m|
    decreases m.Keys
  {
    if m != map[] {
      var k := FirstKey(m);
      DictToDictListLength(m - {k});
      assert (m - {k}).Keys == m.Keys - {k};
    }
  }

  /** Removing two keys from a map in either order gives the same map. */
  lemma RemoveCommutes<K, V>(m: map<K, V>, k: K, k': K)
    ensures m - {k} - {k'} == m - {k'} - {k}
  {
    assert (m - {k} - {k'}).Keys == m.Keys - {k, k'} == (m - {k'} - {k}).Keys;
    forall x | x in m - {k} - {k'} ensures (m - {k} - {k'})[x] == (m - {k'} - {k})[x] { }
  }

  /** Removing a freshly added key restores the map. */
  lemma RemoveAdded<K, V>(m: map<K, V>, k: K, v: V)
    requires k !in m
    ensures m[k := v] - {k} == m
  {
    assert (m[k := v] - {k}).Keys == m.Keys;
    forall x | x in m ensures (m[k := v] - {k})[x] == m[x] { }
  }

  /** Whatever key the iteration visits first, the multiset of values is the same. */
  lemma {:induction false} DictToDictListPick<K, V>(m: map<K, V>, k: K)
    requires k in m
    ensures multiset(DictToDictList(m)) == multiset{m[k]} + multiset(DictToDictList(m - {k}))
    decreases m.Keys
  {
    var k' := FirstKey(m);
    if k' != k {
      var m1, m2 := m - {k'}, m - {k};
      assert DictToDictList(m) == [m[k']] + DictToDictList(m1);
      DictToDictListPick(m1, k);
      DictToDictListPick(m2, k');
      RemoveCommutes(m, k', k);
      var rest := multiset(DictToDictList(m1 - {k}));
      assert multiset(DictToDictList(m1)) == multiset{m[k]} + rest;
      assert multiset(DictToDictList(m2)) == multiset{m[k']} + rest;
    }
  }

  /** `dict_to_dict_list` lists exactly the dict's values. */
  lemma {:induction false} DictToDictListValues<K, V>(m: map<K, V>, v: V)
    ensures v in DictToDictList(m) <==> v in m.Values
    decreases m.Keys
  {
    if m != map[] {
      var k := FirstKey(m);
      var rest := m - {k};
      DictToDictListValues(rest, v);
      assert v in m.Values <==> v == m[k] || v in rest.Values by {
        if v in m.Values {
          var k' :| k' in m && m[k'] == v;
          if k' != k { assert k' in rest; }
        }
        if v in rest.Values {
          var k' :| k' in rest && rest[k'] == v;
          assert k' in m;
        }
      }
    }
  }

  /** The last record's id does not occur earlier when ids are unique. */
  lemma LastIdIsNew(dictList: seq<Record>, idKey: string)
    requires |dictList| > 0
    requires forall i :: 0 <= i < |dictList| ==> idKey in dictList[i]
    requires UniqueIds(dictList, idKey)
    ensures UniqueIds(dictList[..|dictList| - 1], idKey)
    ensures dictList[|dictList| - 1][idKey] !in IdsOf(dictList[..|dictList| - 1], idKey)
  {
    var front := dictList[..|dictList| - 1];
    var id := dictList[|dictList| - 1][idKey];
    forall r | r in front && idKey in r ensures r[idKey] != id {
      var i :| 0 <= i < |front| && front[i] == r;
      assert dictList[i] == r;
    }
  }

  /** The last record is stored under its id on top of the dict of the others. */
  lemma DictListToDictLast(dictList: seq<Record>, idKey: string)
    requires |dictList| > 0 && DictListToDict(dictList, idKey).Ok?
    ensures var front, last := dictList[..|dictList| - 1], dictList[|dictList| - 1];
      && DictListToDict(front, idKey).Ok? && idKey in last
      && DictListToDict(dictList, idKey).value == DictListToDict(front, idKey).value[last[idKey] := last]
  {
  }

  /** Adding a value under a new key adds it to the listed values. */
  lemma DictToDictListAdd<K, V>(m: map<K, V>, k: K, v: V)
    requires k !in m
    ensures multiset(DictToDictList(m[k := v])) == multiset{v} + multiset(DictToDictList(m))
  {
    RemoveAdded(m, k, v);
    DictToDictListPick(m[k := v], k);
  }

  /** `dict_to_dict_list(dict_list_to_dict(l))` is a permutation of `l` when ids are unique. */
  lemma {:induction false} DictListRoundTrip(dictList: seq<Record>, idKey: string)
    requires DictListToDict(dictList, idKey).Ok?
    requires UniqueIds(dictList, idKey)
    ensures multiset(DictToDictList(DictListToDict(dictList, idKey).value)) == multiset(dictList)
    decreases |dictList|
  {
    if dictList != [] {
      var front := dictList[..|dictList| - 1];
      var last := dictList[|dictList| - 1];
      assert dictList == front + [last];
      DictListToDictLast(dictList, idKey);
      LastIdIsNew(dictList, idKey);
      DictListRoundTrip(front, idKey);
      DictToDictListAdd(DictListToDict(front, idKey).value, last[idKey], last);
    }
  }

  // ===========================================================
  // Ids: is_valid_id, clean_id, clean_arg, make_id
  // ===========================================================

  /** The falsy values other than 0 (and False, which Python compares equal to 0). */
  predicate IsEmptyValue(v: Value) {
    v == Null || v == Str("") || v == List([]) || v == SetOf({}) || v == Dict(map[])
  }

  /** A value `is_valid_id` accepts: an int (not a `long`), or a non-empty string. */
  predicate IsIdValue(v: Value) {
    IsPlainInt(v) || (v.Str? && v.s != "")
  }

  /**
   * `is_valid_id(some_id, check_only)`: ValueError for a falsy value that is
   * not equal to 0, True for an int or a string, TypeError otherwise (a
   * `long` among them, since `str(n) == n` is false for it); a truthy
   * `check_only` turns both errors into False.
   */
  function IsValidId(someId: Value, checkOnly: Value): (r: Result<bool>)
    ensures r == Ok(true) <==> IsIdValue(someId)
    ensures r == Ok(false) <==> Truthy(checkOnly) && !IsIdValue(someId)
    ensures r == Err(ValueError) <==> !Truthy(checkOnly) && IsEmptyValue(someId)
    ensures r == Err(TypeError) <==> !Truthy(checkOnly) && !IsEmptyValue(someId) && !IsIdValue(someId)
    ensures r.Err? ==> r.error == ValueError || r.error == TypeError
  {
    var outcome :=
      if !Truthy(someId) && someId != Int(0) && someId != Bool(false) then Err(ValueError)
      else if IsPlainInt(someId) || someId.Str? then Ok(true)
      else Err(TypeError);
    if outcome.Err? && Truthy(checkOnly) then Ok(false) else outcome
  }

  /** `str(v)` for a value that `is_valid_id` accepts. */
  function StrOf(v: Value): string
    requires v.Int? || v.Str?
  {
    if v.Int? then IntToString(v.i) else v.s
  }

  /**
   * `clean_id(some_id, func_name)` as written: `func_name` lands in the
   * `check_only` parameter of `is_valid_id`, so with a truthy `func_name` an
   * invalid id yields None (the function falls off its end) instead of raising.
   */
  function CleanIdAsWritten(someId: Value, funcName: Value): (r: Result<Value>)
    ensures r.Ok? && r.value != Null ==> IsIdValue(someId) && r.value == Str(StrOf(someId))
    ensures r == Ok(Null) <==> Truthy(funcName) && !IsIdValue(someId)
  {
    match IsValidId(someId, funcName)
    case Ok(true) => Ok(Str(StrOf(someId)))
    case Ok(false) => Ok(Null)
    case Err(e) => Err(e)
  }

  /** With a func_name given, an invalid id slips through `clean_id` as None. */
  lemma CleanIdAsWrittenSwallowsError()
    ensures CleanIdAsWritten(Null, Str("get_student")) == Ok(Null)
    ensures CleanId(Null) == Err(ValueError)
  {
  }

  /**
   * `clean_id(some_id)`: the string form of a valid id; ValueError for an
   * empty value, TypeError for anything that is neither an int nor a string.
   */
  function CleanId(someId: Value): (r: Result<string>)
    ensures r.Ok? <==> IsIdValue(someId)
    ensures r.Ok? ==> r.value != "" && r.value == StrOf(someId)
    ensures r.Err? ==> (r.error == ValueError <==> IsEmptyValue(someId))
    ensures r.Err? ==> r.error == ValueError || r.error == TypeError
  {
    match IsValidId(someId, Bool(false))
    case Ok(_) => Ok(StrOf(someId))
    case Err(e) => Err(e)
  }

  /** Without a func_name the written `clean_id` behaves as the intended one. */
  lemma CleanIdAgrees(someId: Value, funcName: Value)
    requires !Truthy(funcName)
    ensures CleanId(someId).Ok? ==> CleanIdAsWritten(someId, funcName) == Ok(Str(CleanId(someId).value))
    ensures CleanId(someId).Err? ==> CleanIdAsWritten(someId, funcName) == Err(CleanId(someId).error)
  {
  }

  /** An integer of 2^63 or more is a `long`: neither an id nor a `make_id` part. */
  lemma LongIsNoId()
    ensures IsValidId(Int(0x8000_0000_0000_0000), Bool(false)) == Err(TypeError)
    ensures IsValidId(Int(0x7FFF_FFFF_FFFF_FFFF), Bool(false)) == Ok(true)
    ensures MakeId([Int(0x8000_0000_0000_0000)]) == Err(TypeError)
    ensures !IsBuiltin(Int(-0x8000_0000_0000_0001))
  {
  }

  /** Cleaning an id twice gives what cleaning it once gave. */
  lemma CleanIdIdempotent(someId: Value)
    requires CleanId(someId).Ok?
    ensures CleanId(Str(CleanId(someId).value)) == CleanId(someId)
  {
  }

  /** `is_builtin(obj)`: int (not `long`), str, dict, list and set (float is not modelled). */
  predicate IsBuiltin(v: Value) {
    IsPlainInt(v) || v.Str? || v.Dict? || v.List? || v.SetOf?
  }

  /** The argument `clean_arg` cleans: the first, unless the first is an object such as `self`. */
  function CleanArgIndex(args: seq<Value>): nat
    requires |args| > 0
  {
    if IsBuiltin(args[0]) then 0 else 1
  }

  /**
   * The `clean_arg` decorator's argument rewrite: the id argument is replaced
   * by its cleaned string form; a missing argument raises IndexError and an
   * invalid id raises what `clean_id` raises.
   */
  function CleanArg(args: seq<Value>): (r: Result<seq<Value>>)
    ensures |args| == 0 || CleanArgIndex(args) >= |args| ==> r == Err(IndexError)
    ensures r.Ok? ==> |r.value| == |args| && CleanId(args[CleanArgIndex(args)]).Ok?
    ensures r.Ok? ==> r.value[CleanArgIndex(args)] == Str(CleanId(args[CleanArgIndex(args)]).value)
    ensures r.Ok? ==> forall j :: 0 <= j < |args| && j != CleanArgIndex(args) ==> r.value[j] == args[j]
    ensures |args| > 0 && CleanArgIndex(args) < |args| ==> (r.Ok? <==> CleanId(args[CleanArgIndex(args)]).Ok?)
    ensures |args| > 0 && CleanArgIndex(args) < |args| && r.Err? ==> r.error == CleanId(args[CleanArgIndex(args)]).error
  {
    if |args| == 0 then Err(IndexError)
    else
      var index := CleanArgIndex(args);
      if index >= |args| then Err(IndexError)
      else
        var cleaned :- CleanId(args[index]);
        Ok(args[index := Str(cleaned)])
  }

  /** Applying the decorator's rewrite again changes nothing. */
  lemma CleanArgIdempotent(args: seq<Value>)
    requires CleanArg(args).Ok?
    ensures CleanArg(CleanArg(args).value) == CleanArg(args)
  {
    var index := CleanArgIndex(args);
    var cleaned := CleanArg(args).value;
    assert CleanArgIndex(cleaned) == index;
    CleanIdIdempotent(args[index]);
    assert cleaned[index := cleaned[index]] == cleaned;
  }

  /** `sep.join(parts)`. */
  function Join(parts: seq<string>, sep: char): string {
    if |parts| == 0 then ""
    else if |parts| == 1 then parts[0]
    else parts[0] + [sep] + Join(parts[1..], sep)
  }

  /** The combined length of some strings. */
  function TotalLength(parts: seq<string>): nat {
    if parts == [] then 0 else |parts[0]| + TotalLength(parts[1..])
  }

  /**
   * A join starts with its first part and adds exactly one separator between
   * neighbouring parts.
   */
  lemma {:induction false} JoinShape(parts: seq<string>, sep: char)
    requires |parts| >= 1
    ensures var j := Join(parts, sep);
      && |j| == TotalLength(parts) + |parts| - 1
      && j[..|parts[0]|] == parts[0]
    decreases |parts|
  {
    if |parts| > 1 {
      JoinShape(parts[1..], sep);
    }
  }

  /** Index of the first occurrence of `c` in `s`. */
  function FirstIndex(s: string, c: char): (i: nat)
    requires c in s
    ensures i < |s| && s[i] == c && c !in s[..i]
  {
    if s[0] == c then 0
    else
      assert s == [s[0]] + s[1..];
      1 + FirstIndex(s[1..], c)
  }

  /** `s.split(sep)`: the pieces between the separators, at least one. */
  function Split(s: string, sep: char): (r: seq<string>)
    ensures |r| >= 1
    decreases |s|
  {
    if sep !in s then [s]
    else
      var i := FirstIndex(s, sep);
      [s[..i]] + Split(s[i + 1..], sep)
  }

  /** The first separator after a separator-free prefix is found right after it. */
  lemma {:induction false} FirstIndexAfter(p: string, c: char, t: string)
    requires c !in p
    ensures c in p + [c] + t && FirstIndex(p + [c] + t, c) == |p|
    decreases |p|
  {
    var s := p + [c] + t;
    assert s[|p|] == c;
    if p != [] {
      assert s[0] == p[0];
      assert s[1..] == p[1..] + [c] + t;
      FirstIndexAfter(p[1..], c, t);
    }
  }

  /** Splitting at a first separator yields the part before it, then the split of the rest. */
  lemma SplitAfter(head: string, sep: char, tail: string)
    requires sep !in head
    ensures Split(head + [sep] + tail, sep) == [head] + Split(tail, sep)
  {
    var s := head + [sep] + tail;
    FirstIndexAfter(head, sep, tail);
    assert s[..|head|] == head;
    assert s[|head| + 1..] == tail;
  }

  /** Splitting a join recovers the parts when no part contains the separator. */
  lemma {:induction false} SplitJoin(parts: seq<string>, sep: char)
    requires |parts| >= 1
    requires forall j :: 0 <= j < |parts| ==> sep !in parts[j]
    ensures Split(Join(parts, sep), sep) == parts
    decreases |parts|
  {
    if |parts| == 1 {
      assert sep !in parts[0];
    } else {
      var head, rest := parts[0], parts[1..];
      assert sep !in head;
      SplitAfter(head, sep, Join(rest, sep));
      SplitJoin(rest, sep);
      assert parts == [head] + rest;
    }
  }

  /** All arguments of `make_id` are ints (not `long`s) or strings. */
  predicate AllIdParts(args: seq<Value>) {
    forall j :: 0 <= j < |args| ==> IsPlainInt(args[j]) || args[j].Str?
  }

  /** The string forms of the arguments, in order. */
  function StrsOf(args: seq<Value>): (r: seq<string>)
    requires AllIdParts(args)
    ensures |r| == |args|
    ensures forall j :: 0 <= j < |args| ==> r[j] == StrOf(args[j])
  {
    if args == [] then [] else [StrOf(args[0])] + StrsOf(args[1..])
  }

  /**
   * `make_id(*args)`: TypeError unless every argument is a string or an int;
   * otherwise their string forms joined by ':' in argument order.
   */
  function MakeId(args: seq<Value>): (r: Result<string>)
    ensures r.Ok? <==> AllIdParts(args)
    ensures r.Err? ==> r.error == TypeError
    ensures r.Ok? ==> r.value == Join(StrsOf(args), ':')
  {
    if AllIdParts(args) then Ok(Join(StrsOf(args), ':')) else Err(TypeError)
  }

  /** `str(i)` of an int never contains ':'. */
  lemma IntHasNoColon(i: int)
    ensures ':' !in IntToString(i)
  {
    var s := IntToString(i);
    assert forall j :: 0 <= j < |s| ==> s[j] != ':';
  }

  /**
   * The parts of a `make_id` id are recovered by splitting on ':' when no
   * string argument contains ':', so the id is unique for its arguments.
   */
  lemma MakeIdSplits(args: seq<Value>)
    requires |args| >= 1 && AllIdParts(args)
    requires forall j :: 0 <= j < |args| && args[j].Str? ==> ':' !in args[j].s
    ensures Split(MakeId(args).value, ':') == StrsOf(args)
  {
    var parts := StrsOf(args);
    forall j | 0 <= j < |parts| ensures ':' !in parts[j] {
      if args[j].Int? { IntHasNoColon(args[j].i); }
    }
    SplitJoin(parts, ':');
  }

  // ===========================================================
  // Phone numbers: digits, valid_us_phone, format_phone
  // ===========================================================

  /** `digits(string)`: the digit characters of `s`, in their original order. */
  function Digits(s: string): (r: string)
    ensures |r| <= |s|
    ensures forall j :: 0 <= j < |r| ==> IsDigit(r[j])
    decreases |s|
  {
    if s == [] then ""
    else (if IsDigit(s[0]) then [s[0]] else []) + Digits(s[1..])
  }

  /** `digits` keeps every digit character of its input, as many times as it occurs. */
  lemma {:induction false} DigitsKeepsEveryDigit(s: string, c: char)
    requires IsDigit(c)
    ensures multiset(Digits(s))[c] == multiset(s)[c]
    decreases |s|
  {
    if s != [] {
      DigitsKeepsEveryDigit(s[1..], c);
      assert s == [s[0]] + s[1..];
      assert multiset(s) == multiset{s[0]} + multiset(s[1..]);
    }
  }

  /** Digits of a concatenation: the digits of each part, in order. */
  lemma {:induction false} DigitsAppend(a: string, b: string)
    ensures Digits(a + b) == Digits(a) + Digits(b)
    decreases |a|
  {
    if a == [] {
      assert a + b == b;
    } else {
      assert (a + b)[0] == a[0];
      assert (a + b)[1..] == a[1..] + b;
      DigitsAppend(a[1..], b);
    }
  }

  /** A string of digits is its own digits. */
  lemma {:induction false} DigitsOfDigits(s: string)
    requires forall j :: 0 <= j < |s| ==> IsDigit(s[j])
    ensures Digits(s) == s
    decreases |s|
  {
    if s != [] {
      DigitsOfDigits(s[1..]);
    }
  }

  /** `valid_us_phone(raw_phone)`: a non-empty string with exactly ten digits. */
  predicate ValidUsPhone(rawPhone: string) {
    rawPhone != "" && |Digits(rawPhone)| == 10
  }

  /** The emptiness test of `valid_us_phone` is implied by its digit count. */
  lemma ValidUsPhoneIffTenDigits(rawPhone: string)
    ensures ValidUsPhone(rawPhone) <==> |Digits(rawPhone)| == 10
  {
  }

  /**
   * `format_phone(raw_phone)`: an invalid number is returned unchanged; a
   * valid one becomes `(ddd) ddd-dddd` over its ten digits.
   */
  function FormatPhone(rawPhone: string): (r: string)
    ensures !ValidUsPhone(rawPhone) ==> r == rawPhone
    ensures ValidUsPhone(rawPhone) ==>
      |r| == 14 && r[0] == '(' && r[4] == ')' && r[5] == ' ' && r[9] == '-'
  {
    if !ValidUsPhone(rawPhone) then rawPhone
    else
      var d := Digits(rawPhone);
      "(" + d[..3] + ") " + d[3..6] + "-" + d[6..10]
  }

  /** A formatted number carries the same digits as the raw one, so it is itself valid. */
  lemma FormatPhoneKeepsDigits(rawPhone: string)
    requires ValidUsPhone(rawPhone)
    ensures Digits(FormatPhone(rawPhone)) == Digits(rawPhone)
    ensures ValidUsPhone(FormatPhone(rawPhone))
  {
    var d := Digits(rawPhone);
    var a, b, c := d[..3], d[3..6], d[6..10];
    DigitsOfDigits(a);
    DigitsOfDigits(b);
    DigitsOfDigits(c);
    var s1 := "(" + a;
    DigitsAppend("(", a);
    assert Digits(s1) == a;
    var s2 := s1 + ") ";
    DigitsAppend(s1, ") ");
    assert Digits(s2) == a;
    var s3 := s2 + b;
    DigitsAppend(s2, b);
    var s4 := s3 + "-";
    DigitsAppend(s3, "-");
    assert Digits(s4) == a + b;
    var s5 := s4 + c;
    DigitsAppend(s4, c);
    assert Digits(s5) == a + b + c;
    assert a + b + c == d;
    assert FormatPhone(rawPhone) == s5;
  }

  /** Formatting a formatted number changes nothing. */
  lemma FormatPhoneIdempotent(rawPhone: string)
    ensures FormatPhone(FormatPhone(rawPhone)) == FormatPhone(rawPhone)
  {
    if ValidUsPhone(rawPhone) {
      FormatPhoneKeepsDigits(rawPhone);
      var f := FormatPhone(rawPhone);
      var d := Digits(rawPhone);
      assert f == "(" + d[..3] + ") " + d[3..6] + "-" + d[6..10];
    }
  }

  // ===========================================================
  // sets_to_lists: in-place rewrite of set values into lists
  // ===========================================================

  /** A mutable Python dict, as passed around by reference. */
  class PyDict {
    var entries: Record

    constructor (entries: Record)
      ensures this.entries == entries
    {
      this.entries := entries;
    }
  }

  /** `items` is `list(s)`: every element of the set exactly once, in some order. */
  ghost predicate ListOfSet(items: seq<Value>, s: set<Value>) {
    |items| == |s| && forall x :: x in items <==> x in s
  }

  /** At `key`, a set became a list of its elements and any other value stayed. */
  ghost predicate ConvertedAt(before: Record, after: Record, key: string)
    requires key in before && key in after
  {
    if before[key].SetOf? then after[key].List? && ListOfSet(after[key].items, before[key].elems)
    else after[key] == before[key]
  }

  /** `after` is `before` with every set value rewritten as a list. */
  ghost predicate Converted(before: Record, after: Record) {
    after.Keys == before.Keys && forall key :: key in before ==> ConvertedAt(before, after, key)
  }

  /** `list(s)` for a set: its elements, in iteration order. */
  method SetToList(s: set<Value>) returns (items: seq<Value>)
    ensures ListOfSet(items, s)
  {
    items := [];
    var todo := s;
    while todo != {}
      invariant todo <= s
      invariant |items| + |todo| == |s|
      invariant forall x :: x in items <==> x in s - todo
      decreases todo
    {
      var x :| x in todo;
      items := items + [x];
      todo := todo - {x};
    }
  }

  /**
   * `sets_to_lists(list_of_dicts)`: in every dict of the list, each set value
   * is replaced in place by a list of its elements; keys and all other values
   * stay. A dict that occurs twice in the list is converted once.
   */
  method SetsToLists(listOfDicts: seq<PyDict>)
    modifies listOfDicts
    ensures forall d :: d in listOfDicts ==> Converted(old(d.entries), d.entries)
  {
    for i := 0 to |listOfDicts|
      invariant forall d :: d in listOfDicts[..i] ==> Converted(old(d.entries), d.entries)
      invariant forall d :: d in listOfDicts && d !in listOfDicts[..i] ==> d.entries == old(d.entries)
    {
      var originalDict := listOfDicts[i];
      ghost var before := originalDict.entries;
      ghost var done := listOfDicts[..i];
      var todo := originalDict.entries.Keys;
      while todo != {}
        invariant todo <= before.Keys && originalDict.entries.Keys == before.Keys
        invariant forall key :: key in todo ==> originalDict.entries[key] == before[key]
        invariant forall key :: key in before && key !in todo ==> ConvertedAt(before, originalDict.entries, key)
        invariant forall d :: d in done && d != originalDict ==> Converted(old(d.entries), d.entries)
        invariant forall d :: d in listOfDicts && d !in done && d != originalDict ==> d.entries == old(d.entries)
        decreases todo
      {
        var key :| key in todo;
        var val := originalDict.entries[key];
        if val.SetOf? {
          var items := SetToList(val.elems);
          originalDict.entries := originalDict.entries[key := List(items)];
        }
        todo := todo - {key};
      }
      assert Converted(before, originalDict.entries);
      assert Converted(old(originalDict.entries), originalDict.entries);
      assert listOfDicts[..i + 1] == done + [originalDict];
    }
    assert listOfDicts[..|listOfDicts|] == listOfDicts;
  }
}
