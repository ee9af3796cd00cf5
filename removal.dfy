/** Deleting every occurrence of the topic marker from a line
    (`remove`), and what that keeps of the line. */
module Removal {
  import opened Text
  import opened Markers

  /** `String.replace(regex, "")` from index `i` on: copies the text between
      the leftmost non-overlapping matches and drops the matches. */
  function RemoveFrom(s: string, i: nat, t: Topic): (r: string)
    requires i <= |s|
    ensures |r| <= |s| - i
    ensures ContainsFrom(s, i, t) ==> |r| < |s| - i
    ensures !ContainsFrom(s, i, t) ==> r == s[i..]
    decreases |s| - i
  {
    if i == |s| then []
    else match MatchAt(s, i, t)
      case Some(e) =>
        assert ContainsFrom(s, i, t);
        RemoveFrom(s, e, t)
      case None =>
        assert ContainsFrom(s, i, t) == ContainsFrom(s, i + 1, t);
        var r := [s[i]] + RemoveFrom(s, i + 1, t);
        assert !ContainsFrom(s, i, t) ==> r == s[i..] by {
          ConsSlice(s, i, |s|);
          assert s[i..|s|] == s[i..];
        }
        r
  }

  /** `String.remove(topic.toRegex())`. */
  function RemoveTopic(s: string, t: Topic): (r: string)
    ensures |r| <= |s|
    ensures r == s <==> !ContainsTopic(s, t)
  {
    RemoveFrom(s, 0, t)
  }

  /** Text with no key of its own is copied unchanged by the scan. */
  lemma KeyFreeTail(prefix: string, rest: string, t: Topic)
    requires !HasKey(rest, t)
    ensures RemoveFrom(prefix + rest, |prefix|, t) == rest
  {
    var s := prefix + rest;
    forall k | |prefix| <= k
      ensures !KeyAt(s, k, t)
    {
      KeyAtShift(prefix, rest, k, t);
    }
    ContainsFromKey(s, |prefix|, t);
    assert s[|prefix|..] == rest;
  }

  /** A line that is one marker followed by text with no further marker
      keeps exactly that text. */
  lemma {:induction false} RemoveLeadingMarker(marker: string, rest: string, t: Topic)
    requires MatchAt(marker + rest, 0, t) == Some(|marker|)
    requires !HasKey(rest, t)
    ensures RemoveTopic(marker + rest, t) == rest
  {
    RemoveFromMatch(marker + rest, 0, |marker|, t);
    KeyFreeTail(marker, rest, t);
  }

  /** Proof aid: one step of the scan where a match starts. */
  lemma RemoveFromMatch(s: string, i: nat, e: nat, t: Topic)
    requires i < |s| && MatchAt(s, i, t) == Some(e)
    ensures RemoveFrom(s, i, t) == RemoveFrom(s, e, t)
  {
  }

  /** Proof aid: one step of the scan where no match starts keeps the
      character it passes over. */
  lemma RemoveFromNoMatch(s: string, i: nat, m: nat, rest: string, t: Topic)
    requires i < m <= |s| && MatchAt(s, i, t).None?
    requires RemoveFrom(s, i + 1, t) == s[i + 1..m] + rest
    ensures RemoveFrom(s, i, t) == s[i..m] + rest
  {
    ConsSlice(s, i, m);
    AppendAssoc([s[i]], s[i + 1..m], rest);
  }

  /** `remove` keeps the text before the leftmost match: where no match
      starts from `i` up to `m`, the scan copies `s[i..m]` unchanged and
      goes on from `m`. */
  lemma {:induction false} RemoveKeepsTextBefore(s: string, i: nat, m: nat, t: Topic)
    requires i <= m <= |s|
    requires forall k :: i <= k < m ==> MatchAt(s, k, t).None?
    ensures RemoveFrom(s, i, t) == s[i..m] + RemoveFrom(s, m, t)
    decreases m - i
  {
    if i < m {
      RemoveKeepsTextBefore(s, i + 1, m, t);
      RemoveFromNoMatch(s, i, m, RemoveFrom(s, m, t), t);
    } else {
      assert s[i..m] == [];
    }
  }

  /** A marker in the middle of a line: text in which no match starts, one
      match, then text with no key of its own. `remove` joins the text
      before the marker to the text after it. */
  lemma RemoveInnerMarker(before: string, marker: string, rest: string, t: Topic)
    requires forall k :: 0 <= k < |before| ==> MatchAt(before + marker + rest, k, t).None?
    requires MatchAt(before + marker + rest, |before|, t) == Some(|before + marker|)
    requires !HasKey(rest, t)
    ensures RemoveTopic(before + marker + rest, t) == before + rest
  {
    var s := before + marker + rest;
    RemoveKeepsTextBefore(s, 0, |before|, t);
    RemoveFromMatch(s, |before|, |before + marker|, t);
    KeyFreeTail(before + marker, rest, t);
    assert s[0..|before|] == before;
  }

  /** A line that starts with a marker (stars, spaces, hashes, spaces, the
      topic name in any case with its colon, spaces) loses exactly that
      marker, the text after it being kept as it is when it has no marker of
      its own and does not start with a space. The parts are given by their
      boundaries `a`, `b`, `h`, `d` and `f`. */
  lemma RemoveMarkerAt(s: string, a: nat, b: nat, h: nat, d: nat, f: nat, t: Topic)
    requires a <= b <= h <= d && d + |Key(t)| <= f <= |s|
    requires forall k :: 0 <= k < a ==> s[k] == '*'
    requires forall k :: a <= k < b ==> IsRegexSpace(s[k])
    requires forall k :: b <= k < h ==> s[k] == '#'
    requires forall k :: h <= k < d ==> IsRegexSpace(s[k])
    requires KeyAt(s, d, t)
    requires forall k :: d + |Key(t)| <= k < f ==> IsRegexSpace(s[k])
    requires f == |s| || !IsRegexSpace(s[f])
    requires !HasKey(s[f..], t)
    ensures RemoveTopic(s, t) == s[f..]
  {
    assert Lower(s[d]) == LowerSeq(s[d..d + |Key(t)|])[0] == 'p';
    PrefixEndOver(s, a, b, h, d);
    SkipRunOver(s, d + |Key(t)|, f, Spaces);
    assert s[..f] + s[f..] == s;
    RemoveLeadingMarker(s[..f], s[f..], t);
  }
}
