/**
 * How the QS API wrapper reads its access key (`_parse_access_key` in
 * modules/qs/qs_api.py): an API key looks like `schoolcode.secret`, and
 * anything else is taken to be a bare school code.
 *
 * The key is checked with `re.match(r'(.+)\.', key)`: from the start of the
 * key, one or more characters other than a newline, as many as possible,
 * followed by a dot. So the school code is the text before the last dot that
 * has at least one character before it and no newline before it.
 */
module QsAccessKey {
  import opened Values

  /** The dot at index `i` can end the match of `(.+)\.`. */
  predicate DotSplits(key: string, i: int) {
    1 <= i < |key| && key[i] == '.' && '\n' !in key[..i]
  }

  /** The largest index below `hi` that can end the match, if any. */
  function LastSplitBelow(key: string, hi: nat): (r: Option<nat>)
    requires hi <= |key|
    ensures r.Some? ==> r.value < hi && DotSplits(key, r.value)
    ensures r.Some? ==> forall i :: r.value < i < hi ==> !DotSplits(key, i)
    ensures r.None? ==> forall i :: i < hi ==> !DotSplits(key, i)
    decreases hi
  {
    if hi <= 1 then None
    else if DotSplits(key, hi - 1) then Some(hi - 1)
    else LastSplitBelow(key, hi - 1)
  }

  /**
   * Where the greedy match ends: the index of the last dot that has at least
   * one character before it and no newline before it; None when the key does
   * not match.
   */
  function MatchEnd(key: string): (r: Option<nat>)
    ensures r.Some? <==> exists i :: DotSplits(key, i)
    ensures r.Some? ==> DotSplits(key, r.value) && forall i :: DotSplits(key, i) ==> i <= r.value
  {
    LastSplitBelow(key, |key|)
  }

  /** What the access key says: the school code, and whether the key itself is the API key. */
  datatype ParsedKey = ParsedKey(schoolcode: string, isApiKey: bool)

  /**
   * `_parse_access_key`: a key that matches is an API key whose school code
   * is the matched group; any other key is a school code, whose API key must
   * come from the key store.
   */
  function ParseAccessKey(key: string): (p: ParsedKey)
    ensures p.isApiKey <==> MatchEnd(key).Some?
    ensures p.isApiKey ==> p.schoolcode == key[..MatchEnd(key).value]
    ensures !p.isApiKey ==> p.schoolcode == key
  {
    match MatchEnd(key)
    case Some(i) => ParsedKey(key[..i], true)
    case None => ParsedKey(key, false)
  }

  /**
   * An API key built as `schoolcode.secret` gives back its school code, even
   * when the school code holds dots itself, as long as the secret has none.
   */
  lemma ParseComposedKey(schoolcode: string, secret: string)
    requires schoolcode != "" && '\n' !in schoolcode && '.' !in secret
    ensures ParseAccessKey(schoolcode + "." + secret) == ParsedKey(schoolcode, true)
  {
    var key := schoolcode + "." + secret;
    assert key[..|schoolcode|] == schoolcode;
    assert DotSplits(key, |schoolcode|);
    forall i | |schoolcode| < i < |key|
      ensures !DotSplits(key, i)
    {
      assert key[i] == secret[i - |schoolcode| - 1];
    }
  }

  /** A key without a dot after its first character is a school code. */
  lemma ParseBareSchoolcode(key: string)
    requires forall i :: 1 <= i < |key| ==> key[i] != '.'
    ensures ParseAccessKey(key) == ParsedKey(key, false)
  {
  }

  /** A leading dot cannot end the match: `.abc` is a school code. */
  lemma LeadingDotIsSchoolcode()
    ensures ParseAccessKey(".abc") == ParsedKey(".abc", false)
  {
    assert forall i :: 1 <= i < 4 ==> ".abc"[i] != '.';
    ParseBareSchoolcode(".abc");
  }

  /** A dot after a newline does not match: the regular expression's `.` stops at a newline. */
  lemma DotAfterNewlineIsSchoolcode()
    ensures ParseAccessKey("ab\ncd.ef") == ParsedKey("ab\ncd.ef", false)
  {
    var key := "ab\ncd.ef";
    forall i | 0 <= i < |key|
      ensures !DotSplits(key, i)
    {
      if i > 2 {
        assert key[..i][2] == '\n';
      }
    }
  }

  /** `_api_key_store_key_path`: where the key store keeps a school's API key. */
  function KeyStorePath(server: string, schoolcode: string): (path: seq<string>)
    ensures |path| == 3 && path[0] == "qs"
    ensures path[1] == server && path[2] == schoolcode
  {
    ["qs", server, schoolcode]
  }

  /** Different servers or schools are stored under different paths. */
  lemma KeyStorePathInjective(s1: string, c1: string, s2: string, c2: string)
    ensures KeyStorePath(s1, c1) == KeyStorePath(s2, c2) <==> s1 == s2 && c1 == c2
  {
    if KeyStorePath(s1, c1) == KeyStorePath(s2, c2) {
      assert KeyStorePath(s1, c1)[1] == s1 && KeyStorePath(s2, c2)[2] == c2;
    }
  }
}
