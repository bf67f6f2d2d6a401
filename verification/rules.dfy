/** How the engines use the signature matcher `rules.is_match(text,
    patterns)`: the matcher itself is not part of this model, only the two
    ways the engines query it — every pattern that matches by itself, once
    the whole list matches, and the first such pattern. */
module Rules {
  import opened PyJson

  /** `is_match(text, patterns)` */
  type Matcher = (string, seq<string>) -> bool

  /** The patterns among the first `j` that match `text` by themselves. */
  function MatchedUpTo(isMatch: Matcher, text: string, pats: seq<string>, j: nat): seq<string>
    requires j <= |pats|
  {
    if j == 0 then []
    else
      var hit := if isMatch(text, [pats[j - 1]]) then [pats[j - 1]] else [];
      MatchedUpTo(isMatch, text, pats, j - 1) + hit
  }

  /** Nothing unless the text matches the whole list; then every pattern
      that matches by itself, in list order. */
  function Matched(isMatch: Matcher, text: string, pats: seq<string>): seq<string> {
    if isMatch(text, pats) then MatchedUpTo(isMatch, text, pats, |pats|) else []
  }

  /** `pats[k]` matches by itself. */
  predicate MatchesAlone(isMatch: Matcher, text: string, pats: seq<string>, k: nat)
    requires k < |pats|
  {
    isMatch(text, [pats[k]])
  }

  /** `m` lists, in order, exactly the patterns among the first `j` that
      match by themselves: it is the image of an increasing sequence of
      indices, and every index that matches is in it. */
  predicate ListsMatches(isMatch: Matcher, text: string, pats: seq<string>, j: nat, m: seq<string>, idx: seq<nat>)
    requires j <= |pats|
  {
    && |idx| == |m|
    && (forall a :: 0 <= a < |idx| ==> idx[a] < j && m[a] == pats[idx[a]] && MatchesAlone(isMatch, text, pats, idx[a]))
    && (forall a, b :: 0 <= a < b < |idx| ==> idx[a] < idx[b])
    && (forall k :: 0 <= k < j && MatchesAlone(isMatch, text, pats, k) ==> k in idx)
  }

  lemma {:induction false} MatchedUpToLists(isMatch: Matcher, text: string, pats: seq<string>, j: nat)
    returns (idx: seq<nat>)
    requires j <= |pats|
    ensures ListsMatches(isMatch, text, pats, j, MatchedUpTo(isMatch, text, pats, j), idx)
  {
    if j == 0 {
      idx := [];
    } else {
      var prev := MatchedUpTo(isMatch, text, pats, j - 1);
      var before := MatchedUpToLists(isMatch, text, pats, j - 1);
      if MatchesAlone(isMatch, text, pats, j - 1) {
        idx := before + [j - 1];
        var m := prev + [pats[j - 1]];
        assert MatchedUpTo(isMatch, text, pats, j) == m;
        forall a | 0 <= a < |idx|
          ensures idx[a] < j && m[a] == pats[idx[a]] && MatchesAlone(isMatch, text, pats, idx[a])
        {
          if a < |before| {
            assert idx[a] == before[a] && m[a] == prev[a];
          }
        }
        forall a, b | 0 <= a < b < |idx| ensures idx[a] < idx[b] {
          if b < |before| {
            assert idx[a] == before[a] && idx[b] == before[b];
          } else {
            assert idx[a] == before[a];
          }
        }
        forall k | 0 <= k < j && MatchesAlone(isMatch, text, pats, k) ensures k in idx {
          if k < j - 1 {
            assert k in before;
            var a :| 0 <= a < |before| && before[a] == k;
            assert idx[a] == k;
          } else {
            assert idx[|before|] == k;
          }
        }
      } else {
        idx := before;
        assert MatchedUpTo(isMatch, text, pats, j) == prev;
        forall k | 0 <= k < j && MatchesAlone(isMatch, text, pats, k) ensures k in idx {
          assert k < j - 1;
        }
      }
    }
  }

  /** The reported patterns are exactly the individually matching ones, in
      list order, provided the whole list matches. */
  lemma MatchedLists(isMatch: Matcher, text: string, pats: seq<string>)
    returns (idx: seq<nat>)
    ensures isMatch(text, pats) ==> ListsMatches(isMatch, text, pats, |pats|, Matched(isMatch, text, pats), idx)
    ensures !isMatch(text, pats) ==> Matched(isMatch, text, pats) == []
  {
    idx := MatchedUpToLists(isMatch, text, pats, |pats|);
  }

  /** The first pattern at index `j` or later that matches by itself. */
  function FirstMatchFrom(isMatch: Matcher, text: string, pats: seq<string>, j: nat): Option<string>
    requires j <= |pats|
    decreases |pats| - j
  {
    if j == |pats| then None
    else if isMatch(text, [pats[j]]) then Some(pats[j])
    else FirstMatchFrom(isMatch, text, pats, j + 1)
  }

  /** What the fail-fast loops find: the first individually matching
      pattern, once the whole list matches. */
  function FirstMatch(isMatch: Matcher, text: string, pats: seq<string>): Option<string> {
    if isMatch(text, pats) then FirstMatchFrom(isMatch, text, pats, 0) else None
  }

  /** `if is_match(text, pats): for pat in pats: if is_match(text, [pat]): ...
      return`, as a search. */
  method FindFirst(isMatch: Matcher, text: string, pats: seq<string>) returns (r: Option<string>)
    ensures r == FirstMatch(isMatch, text, pats)
  {
    if !isMatch(text, pats) {
      return None;
    }
    var j := 0;
    while j < |pats|
      invariant 0 <= j <= |pats|
      invariant FirstMatchFrom(isMatch, text, pats, j) == FirstMatchFrom(isMatch, text, pats, 0)
    {
      if isMatch(text, [pats[j]]) {
        return Some(pats[j]);
      }
      j := j + 1;
    }
    return None;
  }

  /** The search finds the least index whose pattern matches by itself. */
  lemma {:induction false} FirstMatchFromIsHead(isMatch: Matcher, text: string, pats: seq<string>, j: nat)
    requires j <= |pats|
    ensures FirstMatchFrom(isMatch, text, pats, j) ==
      if exists k :: j <= k < |pats| && MatchesAlone(isMatch, text, pats, k) then
        Some(pats[Least(isMatch, text, pats, j)])
      else None
    decreases |pats| - j
  {
    if j < |pats| && !isMatch(text, [pats[j]]) {
      FirstMatchFromIsHead(isMatch, text, pats, j + 1);
      if exists k :: j <= k < |pats| && MatchesAlone(isMatch, text, pats, k) {
        var k :| j <= k < |pats| && MatchesAlone(isMatch, text, pats, k);
        assert j + 1 <= k;
      }
    } else if j < |pats| {
      assert MatchesAlone(isMatch, text, pats, j);
    }
  }

  /** The least index at `j` or later whose pattern matches by itself. */
  function Least(isMatch: Matcher, text: string, pats: seq<string>, j: nat): (k: nat)
    requires j <= |pats|
    requires exists k :: j <= k < |pats| && MatchesAlone(isMatch, text, pats, k)
    ensures j <= k < |pats| && MatchesAlone(isMatch, text, pats, k)
    ensures forall k' :: j <= k' < k ==> !MatchesAlone(isMatch, text, pats, k')
    decreases |pats| - j
  {
    if MatchesAlone(isMatch, text, pats, j) then j
    else
      assert exists k :: j + 1 <= k < |pats| && MatchesAlone(isMatch, text, pats, k) by {
        var k :| j <= k < |pats| && MatchesAlone(isMatch, text, pats, k);
        assert k != j;
      }
      Least(isMatch, text, pats, j + 1)
  }

  /** One message per pattern, in order. */
  function Tagged(m: seq<string>, tag: string -> string): (r: seq<string>)
    ensures |r| == |m|
    ensures forall k :: 0 <= k < |m| ==> r[k] == tag(m[k])
  {
    seq(|m|, k requires 0 <= k < |m| => tag(m[k]))
  }

  lemma TaggedSnoc(m: seq<string>, x: seq<string>, tag: string -> string)
    requires |x| <= 1
    ensures Tagged(m + x, tag) == Tagged(m, tag) + Tagged(x, tag)
  {
  }

  /** The message-appending loops of the engines:
      `if is_match(text, pats): for pat in pats: if is_match(text, [pat]): threats.append(tag(pat))`. */
  method TagMatches(isMatch: Matcher, text: string, pats: seq<string>, tag: string -> string) returns (threats: seq<string>)
    ensures threats == Tagged(Matched(isMatch, text, pats), tag)
  {
    threats := [];
    if isMatch(text, pats) {
      var j := 0;
      while j < |pats|
        invariant 0 <= j <= |pats|
        invariant threats == Tagged(MatchedUpTo(isMatch, text, pats, j), tag)
      {
        var hit := if isMatch(text, [pats[j]]) then [pats[j]] else [];
        TaggedSnoc(MatchedUpTo(isMatch, text, pats, j), hit, tag);
        if isMatch(text, [pats[j]]) {
          threats := threats + [tag(pats[j])];
        }
        j := j + 1;
      }
    }
  }
}
