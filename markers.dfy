/** Topics and the topic marker `\**\s*#*\s*<name>:\s*` (case-insensitive,
    anywhere in a line): where a match starts and ends, and recognising it
    (`containsTopic`). The regular expression is modelled by a matcher
    written for this one pattern shape. */
module Markers {
  import opened Text

  /** The enum `Topic`; its declared order is `AllTopics`. */
  datatype Topic = Public | Private

  const AllTopics: seq<Topic> := [Public, Private]

  /** The enum constant's name, as it appears in the regular expression. */
  function Name(t: Topic): string {
    match t
    case Public => "public"
    case Private => "private"
  }

  /** The mandatory part of a marker: the topic name and a colon. */
  function Key(t: Topic): string {
    Name(t) + ":"
  }

  /** `Key(t)` occurs at index `k` of `s`, ignoring ASCII case. */
  predicate KeyAt(s: string, k: int, t: Topic) {
    0 <= k && k + |Key(t)| <= |s| && LowerSeq(s[k..k + |Key(t)|]) == Key(t)
  }

  /** The lower-cased line contains `Key(t)`. */
  ghost predicate HasKey(s: string, t: Topic) {
    exists k :: KeyAt(s, k, t)
  }

  /** The section header `formatTopic` renders for a topic: a level-two
      markdown heading that is itself a marker of its topic. */
  function FormatTopic(t: Topic): (h: string)
    ensures |h| > 3 && h[..3] == "## "
    ensures HasKey(h, t)
  {
    match t
    case Public =>
      assert "## Public:"[3..10] == "Public:";
      assert LowerSeq("Public:") == "public:";
      assert KeyAt("## Public:", 3, Public);
      "## Public:"
    case Private =>
      assert "## Private:"[3..11] == "Private:";
      assert LowerSeq("Private:") == "private:";
      assert KeyAt("## Private:", 3, Private);
      "## Private:"
  }

  /** The three character classes of the marker's optional prefix. */
  datatype CharClass = Stars | Spaces | Hashes

  predicate InClass(c: char, cls: CharClass) {
    match cls
    case Stars => c == '*'
    case Spaces => IsRegexSpace(c)
    case Hashes => c == '#'
  }

  /** A greedy `X*`: the end of the longest run of class members from `i`. */
  function SkipRun(s: string, i: nat, cls: CharClass): (j: nat)
    requires i <= |s|
    ensures i <= j <= |s|
    ensures j == |s| || !InClass(s[j], cls)
    decreases |s| - i
  {
    if i < |s| && InClass(s[i], cls) then SkipRun(s, i + 1, cls) else i
  }

  /** Everything `SkipRun` passes over belongs to the class. */
  lemma {:induction false} SkipRunPassesMembers(s: string, i: nat, cls: CharClass)
    requires i <= |s|
    ensures forall k :: i <= k < SkipRun(s, i, cls) ==> InClass(s[k], cls)
    decreases |s| - i
  {
    if i < |s| && InClass(s[i], cls) {
      SkipRunPassesMembers(s, i + 1, cls);
    }
  }

  /** Where `\**\s*#*\s*` matched greedily from `i` ends, which is where the
      topic name has to start. */
  function PrefixEnd(s: string, i: nat): (j: nat)
    requires i <= |s|
    ensures i <= j <= |s|
  {
    SkipRun(s, SkipRun(s, SkipRun(s, SkipRun(s, i, Stars), Spaces), Hashes), Spaces)
  }

  /** The match of the marker pattern that starts at `i`, if any, as the
      index just past it. The greedy stage-wise match is also the first one
      a backtracking matcher finds, since the name starts with a letter
      none of the prefix classes contains. */
  function MatchAt(s: string, i: nat, t: Topic): (r: Option<nat>)
    requires i <= |s|
    ensures r.Some? ==> i < r.value <= |s|
    ensures r.Some? <==> KeyAt(s, PrefixEnd(s, i), t)
  {
    var j := PrefixEnd(s, i);
    if KeyAt(s, j, t) then Some(SkipRun(s, j + |Key(t)|, Spaces)) else None
  }

  /** A match ends after the key and the whole run of `\s` that follows
      it: every character between the key and the end is a space, and the
      character at the end, if any, is not. */
  lemma MatchEnd(s: string, i: nat, t: Topic)
    requires i <= |s| && MatchAt(s, i, t).Some?
    ensures var e := PrefixEnd(s, i) + |Key(t)|; var r := MatchAt(s, i, t).value;
      && e <= r
      && (forall k :: e <= k < r ==> IsRegexSpace(s[k]))
      && (r == |s| || !IsRegexSpace(s[r]))
  {
    SkipRunPassesMembers(s, PrefixEnd(s, i) + |Key(t)|, Spaces);
  }

  datatype Option<T> = None | Some(value: T)

  /** `Matcher.find()` from `i`: some match starts at an index `>= i`. */
  function ContainsFrom(s: string, i: nat, t: Topic): bool
    requires i <= |s|
    decreases |s| - i
  {
    i < |s| && (MatchAt(s, i, t).Some? || ContainsFrom(s, i + 1, t))
  }

  /** A match starts at or after `i` exactly when the key occurs there. */
  lemma {:induction false} ContainsFromKey(s: string, i: nat, t: Topic)
    requires i <= |s|
    ensures ContainsFrom(s, i, t) <==> exists k :: i <= k && KeyAt(s, k, t)
    decreases |s| - i
  {
    if i == |s| {
      assert forall k :: i <= k ==> !KeyAt(s, k, t);
    } else if MatchAt(s, i, t).Some? {
      assert KeyAt(s, PrefixEnd(s, i), t);
    } else {
      ContainsFromKey(s, i + 1, t);
      assert !KeyAt(s, i, t) by {
        if KeyAt(s, i, t) {
          KeyStartsAPrefixEnd(s, i, t);
        }
      }
      if ContainsFrom(s, i + 1, t) {
        var k :| i + 1 <= k && KeyAt(s, k, t);
        assert i <= k;
      } else {
        assert forall k :: i <= k && KeyAt(s, k, t) ==> i + 1 <= k;
      }
    }
  }

  /** The key itself starts with a letter, so a match tried where the key
      starts consumes no prefix and succeeds. */
  lemma KeyStartsAPrefixEnd(s: string, k: nat, t: Topic)
    requires KeyAt(s, k, t)
    ensures PrefixEnd(s, k) == k && MatchAt(s, k, t).Some?
  {
    assert LowerSeq(s[k..k + |Key(t)|])[0] == 'p';
    assert s[k] == 'p' || s[k] == 'P';
  }

  /** `String.containsTopic(topic)`. A line contains a marker for `t`
      exactly when, lower-cased, it contains `t`'s name followed by a colon:
      all of the marker's prefix is optional. */
  function ContainsTopic(s: string, t: Topic): (b: bool)
    ensures b <==> HasKey(s, t)
  {
    ContainsFromKey(s, 0, t);
    ContainsFrom(s, 0, t)
  }

  /** The key occurs in `rest` where it occurs in `prefix + rest`, shifted. */
  lemma KeyAtShift(prefix: string, rest: string, j: nat, t: Topic)
    requires |prefix| <= j
    ensures KeyAt(prefix + rest, j, t) == KeyAt(rest, j - |prefix|, t)
  {
    var s, k := prefix + rest, j - |prefix|;
    if k + |Key(t)| <= |rest| {
      assert s[j..j + |Key(t)|] == rest[k..k + |Key(t)|];
    }
  }

  /** A run of class members ending at a non-member (or the end) is what
      `SkipRun` passes over. */
  lemma {:induction false} SkipRunOver(s: string, i: nat, j: nat, cls: CharClass)
    requires i <= j <= |s|
    requires forall k :: i <= k < j ==> InClass(s[k], cls)
    requires j == |s| || !InClass(s[j], cls)
    ensures SkipRun(s, i, cls) == j
    decreases j - i
  {
    if i < j {
      SkipRunOver(s, i + 1, j, cls);
    }
  }

  /** The greedy prefix runs of the marker end where they are laid out. */
  lemma PrefixEndOver(s: string, a: nat, b: nat, h: nat, d: nat)
    requires a <= b <= h <= d < |s|
    requires forall k :: 0 <= k < a ==> InClass(s[k], Stars)
    requires forall k :: a <= k < b ==> InClass(s[k], Spaces)
    requires forall k :: b <= k < h ==> InClass(s[k], Hashes)
    requires forall k :: h <= k < d ==> InClass(s[k], Spaces)
    requires s[d] == 'p' || s[d] == 'P'
    ensures PrefixEnd(s, 0) == d
  {
    SkipRunOver(s, 0, a, Stars);
    if b == h {
      SkipRunOver(s, a, d, Spaces);
      SkipRunOver(s, d, d, Hashes);
      SkipRunOver(s, d, d, Spaces);
    } else {
      SkipRunOver(s, a, b, Spaces);
      SkipRunOver(s, b, h, Hashes);
      SkipRunOver(s, h, d, Spaces);
    }
  }
}
