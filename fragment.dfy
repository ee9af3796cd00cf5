/** The fragment parser `readChangelogEntry`: the lines of one changelog
    fragment become changelog entries, classified by a running topic that
    marker lines switch. */
module Fragment {
  import opened Text
  import opened Markers
  import opened Removal

  datatype ChangelogEntry = ChangelogEntry(topic: Topic, task: string, text: string)

  /** A fragment file: its name and its lines. */
  datatype ChangelogFile = ChangelogFile(name: string, content: seq<string>)

  /** The file name ends with `.md` in any case: the regex `\.md$` with
      IGNORE_CASE finds a match. */
  predicate HasMdSuffix(name: string) {
    |name| >= 3 && LowerSeq(name[|name| - 3..]) == ".md"
  }

  /** The task of a fragment: its file name without the `.md` extension. */
  function TaskName(fileName: string): (task: string)
    ensures HasMdSuffix(fileName) ==> |fileName| - |task| == 3 && task + fileName[|task|..] == fileName
    ensures !HasMdSuffix(fileName) ==> task == fileName
  {
    if HasMdSuffix(fileName) then fileName[..|fileName| - 3] else fileName
  }

  /** Any file named `<base>.md`, `<base>.MD`, `<base>.Md`, ... belongs to the
      task `<base>`. */
  lemma TaskNameOfMdFile(base: string, ext: string)
    requires LowerSeq(ext) == ".md"
    ensures TaskName(base + ext) == base
  {
    var name := base + ext;
    assert name[|name| - 3..] == ext;
    assert name[..|name| - 3] == base;
  }

  /** The tag `[<task>]` that rendering appends to every entry. */
  function TaskTag(task: string): string {
    "[" + task + "]"
  }

  /** A line as the loop body first rewrites it: a trailing task tag
      removed, then trimmed. The result is trimmed, and a trimmed line
      without the tag is kept as it is. */
  function StripLine(line: string, task: string): (r: string)
    ensures IsTrimmed(r)
    ensures IsTrimmed(line) && !EndsWith(line, TaskTag(task)) ==> r == line
  {
    Trim(RemoveSuffix(line, TaskTag(task)))
  }

  /** What the loop body finds in one line: a marker of some topic with
      the text left after removing it, or plain text. */
  datatype LineKind = Marker(topic: Topic, rest: string) | Plain(text: string)

  /** The classification the loop body makes. A line is a public marker
      exactly when its stripped, lower-cased form contains `public:`, a
      private marker exactly when it contains `private:` but not `public:`,
      and plain otherwise; a plain line keeps its stripped text and a marker
      line keeps what `remove` leaves of it, which is strictly shorter. */
  function Classify(task: string, line: string): (k: LineKind)
    ensures var parsed := StripLine(line, task);
      && (k.Marker? && k.topic == Public <==> HasKey(parsed, Public))
      && (k.Marker? && k.topic == Private <==> !HasKey(parsed, Public) && HasKey(parsed, Private))
      && (k.Plain? <==> !HasKey(parsed, Public) && !HasKey(parsed, Private))
      && (k.Plain? ==> k.text == parsed)
      && (k.Marker? ==> k.rest == RemoveTopic(parsed, k.topic))
      && (k.Marker? ==> |k.rest| < |parsed|)
  {
    var parsed := StripLine(line, task);
    if ContainsTopic(parsed, Public) then Marker(Public, RemoveTopic(parsed, Public))
    else if ContainsTopic(parsed, Private) then Marker(Private, RemoveTopic(parsed, Private))
    else Plain(parsed)
  }

  /** The state the loop of `readChangelogEntry` carries from line to line. */
  datatype ParserState = ParserState(entries: seq<ChangelogEntry>, topic: Topic)

  /** One pass of the loop body over a line of the given kind. */
  function Step(st: ParserState, task: string, kind: LineKind): ParserState {
    match kind
    case Marker(m, rest) =>
      ParserState(if IsBlank(rest) then st.entries else st.entries + [ChangelogEntry(m, task, rest)], m)
    case Plain(text) =>
      ParserState(st.entries + [ChangelogEntry(st.topic, task, text)], st.topic)
  }

  /** The loop run over lines of the given kinds, starting with no entries
      and topic public. */
  function Fold(task: string, kinds: seq<LineKind>): ParserState
    decreases |kinds|
  {
    if kinds == [] then ParserState([], Public)
    else Step(Fold(task, kinds[..|kinds| - 1]), task, kinds[|kinds| - 1])
  }

  /** The kinds of all lines of a fragment. */
  function Kinds(task: string, lines: seq<string>): (kinds: seq<LineKind>)
    ensures |kinds| == |lines|
  {
    seq(|lines|, i requires 0 <= i < |lines| => Classify(task, lines[i]))
  }

  /** `readChangelogEntry`: the entries of a fragment are those of the
      reference description below, and all carry the fragment's task. */
  method ReadChangelogEntry(file: ChangelogFile) returns (logEntries: seq<ChangelogEntry>)
    ensures logEntries == Expected(TaskName(file.name), Kinds(TaskName(file.name), file.content), |file.content|)
    ensures forall e :: e in logEntries ==> e.task == TaskName(file.name)
  {
    logEntries := [];
    var task := TaskName(file.name);
    ghost var kinds := Kinds(task, file.content);
    var topic := Public;
    for i := 0 to |file.content|
      invariant Fold(task, kinds[..i]) == ParserState(logEntries, topic)
    {
      var line := file.content[i];
      FoldStep(task, kinds, i);
      var parsedLine := line;
      parsedLine := Trim(RemoveSuffix(parsedLine, TaskTag(task)));
      assert kinds[i] == Classify(task, line);
      if ContainsTopic(parsedLine, Public) {
        parsedLine := RemoveTopic(parsedLine, Public);
        topic := Public;
        if !IsBlank(parsedLine) {
          logEntries := logEntries + [ChangelogEntry(topic, task, parsedLine)];
        }
      } else if ContainsTopic(parsedLine, Private) {
        topic := Private;
        parsedLine := RemoveTopic(parsedLine, Private);
        if !IsBlank(parsedLine) {
          logEntries := logEntries + [ChangelogEntry(topic, task, parsedLine)];
        }
      } else {
        logEntries := logEntries + [ChangelogEntry(topic, task, parsedLine)];
      }
    }
    assert kinds[..|kinds|] == kinds;
    FoldIsExpected(task, kinds, |kinds|);
    ExpectedTasks(task, kinds, |kinds|);
  }

  lemma FoldStep(task: string, kinds: seq<LineKind>, i: nat)
    requires i < |kinds|
    ensures Fold(task, kinds[..i + 1]) == Step(Fold(task, kinds[..i]), task, kinds[i])
  {
    assert kinds[..i + 1][..i] == kinds[..i];
  }

  // ----- A reference description that threads no state -----

  /** A line yields an entry unless it is a marker with only blanks left. */
  predicate Emits(kind: LineKind) {
    kind.Plain? || !IsBlank(kind.rest)
  }

  /** The text of the entry a line yields. */
  function TextOf(kind: LineKind): string {
    match kind
    case Marker(_, rest) => rest
    case Plain(text) => text
  }

  /** The topic that governs line `k`: that of the nearest marker line at
      or before it, public when there is none. */
  function Governing(kinds: seq<LineKind>, k: nat): Topic
    requires k < |kinds|
  {
    match kinds[k]
    case Marker(m, _) => m
    case Plain(_) => if k == 0 then Public else Governing(kinds, k - 1)
  }

  /** The entries of the first `n` lines: one per emitting line, in line
      order, with the governing topic. */
  function Expected(task: string, kinds: seq<LineKind>, n: nat): seq<ChangelogEntry>
    requires n <= |kinds|
  {
    if n == 0 then []
    else
      Expected(task, kinds, n - 1)
        + if Emits(kinds[n - 1]) then [ChangelogEntry(Governing(kinds, n - 1), task, TextOf(kinds[n - 1]))] else []
  }

  /** The entries of all lines. */
  function Entries(task: string, kinds: seq<LineKind>): seq<ChangelogEntry> {
    Expected(task, kinds, |kinds|)
  }

  /** The loop computes the reference entries, and its running topic is
      the topic governing the last line read. */
  lemma {:induction false} FoldIsExpected(task: string, kinds: seq<LineKind>, n: nat)
    requires n <= |kinds|
    ensures Fold(task, kinds[..n]).entries == Expected(task, kinds, n)
    ensures Fold(task, kinds[..n]).topic == if n == 0 then Public else Governing(kinds, n - 1)
  {
    if n > 0 {
      FoldIsExpected(task, kinds, n - 1);
      assert kinds[..n][..n - 1] == kinds[..n - 1];
    }
  }

  /** Every entry of a fragment carries the fragment's task. */
  lemma {:induction false} ExpectedTasks(task: string, kinds: seq<LineKind>, n: nat)
    requires n <= |kinds|
    ensures forall e :: e in Expected(task, kinds, n) ==> e.task == task
  {
    if n > 0 {
      ExpectedTasks(task, kinds, n - 1);
    }
  }

  /** The governing topic is that of the nearest marker line at or before. */
  lemma {:induction false} GoverningIsNearestMarker(kinds: seq<LineKind>, j: nat, k: nat)
    requires j <= k < |kinds| && kinds[j].Marker?
    requires forall i :: j < i <= k ==> kinds[i].Plain?
    ensures Governing(kinds, k) == kinds[j].topic
    decreases k
  {
    if j < k {
      GoverningIsNearestMarker(kinds, j, k - 1);
    }
  }

  /** Before the first marker line, the governing topic is public. */
  lemma {:induction false} GoverningDefaultsToPublic(kinds: seq<LineKind>, k: nat)
    requires k < |kinds|
    requires forall i :: 0 <= i <= k ==> kinds[i].Plain?
    ensures Governing(kinds, k) == Public
  {
    if k > 0 {
      GoverningDefaultsToPublic(kinds, k - 1);
    }
  }

  /** The number of entries is the number of lines less the marker lines
      whose remainder is blank: every plain line yields one, blank or not. */
  lemma {:induction false} ExpectedCount(task: string, kinds: seq<LineKind>, n: nat)
    requires n <= |kinds|
    ensures |Expected(task, kinds, n)| == n - |set i | 0 <= i < n && !Emits(kinds[i])|
  {
    if n > 0 {
      ExpectedCount(task, kinds, n - 1);
      var prev := set i | 0 <= i < n - 1 && !Emits(kinds[i]);
      var cur := set i | 0 <= i < n && !Emits(kinds[i]);
      if Emits(kinds[n - 1]) {
        assert cur == prev;
      } else {
        assert cur == prev + {n - 1};
      }
    }
  }

  // ----- Fragments put one after the other -----

  /** Classification is line by line. */
  lemma KindsAppend(task: string, l1: seq<string>, l2: seq<string>)
    ensures Kinds(task, l1 + l2) == Kinds(task, l1) + Kinds(task, l2)
  {
    var k := Kinds(task, l1 + l2);
    forall i | 0 <= i < |l1| + |l2|
      ensures k[i] == (Kinds(task, l1) + Kinds(task, l2))[i]
    {
      if i < |l1| {
        assert (l1 + l2)[i] == l1[i];
      } else {
        assert (l1 + l2)[i] == l2[i - |l1|];
      }
    }
  }

  /** After a marker line, the governing topic no longer depends on the
      lines before it. */
  lemma {:induction false} GoverningAfterMarker(k1: seq<LineKind>, k2: seq<LineKind>, j: nat)
    requires j < |k2| && k2[0].Marker?
    ensures Governing(k1 + k2, |k1| + j) == Governing(k2, j)
  {
    assert (k1 + k2)[|k1| + j] == k2[j];
    if j > 0 && k2[j].Plain? {
      GoverningAfterMarker(k1, k2, j - 1);
    }
  }

  /** Lines that start with a marker line yield the same entries whatever
      lines come before them. */
  lemma {:induction false} ExpectedAppend(task: string, k1: seq<LineKind>, k2: seq<LineKind>, n: nat)
    requires n <= |k2| && (k2 != [] ==> k2[0].Marker?)
    ensures Expected(task, k1 + k2, |k1| + n) == Expected(task, k1, |k1|) + Expected(task, k2, n)
  {
    if n == 0 {
      ExpectedPrefix(task, k1, k2, |k1|);
    } else {
      ExpectedAppend(task, k1, k2, n - 1);
      assert (k1 + k2)[|k1| + n - 1] == k2[n - 1];
      GoverningAfterMarker(k1, k2, n - 1);
    }
  }

  /** Kinds that split before a marker yield the entries of the two parts,
      one after the other. */
  lemma ExpectedSplit(task: string, k1: seq<LineKind>, k2: seq<LineKind>)
    requires k2 != [] && k2[0].Marker?
    ensures Entries(task, k1 + k2) == Entries(task, k1) + Entries(task, k2)
  {
    var k := k1 + k2;
    ExpectedAppend(task, k1, k2, |k2|);
    assert Expected(task, k, |k1| + |k2|) == Expected(task, k, |k|);
  }

  /** The entries of the first `n` lines do not depend on later lines. */
  lemma {:induction false} ExpectedPrefix(task: string, k1: seq<LineKind>, k2: seq<LineKind>, n: nat)
    requires n <= |k1|
    ensures Expected(task, k1 + k2, n) == Expected(task, k1, n)
  {
    if n > 0 {
      ExpectedPrefix(task, k1, k2, n - 1);
      assert (k1 + k2)[n - 1] == k1[n - 1];
      GoverningPrefix(k1, k2, n - 1);
    }
  }

  lemma {:induction false} GoverningPrefix(k1: seq<LineKind>, k2: seq<LineKind>, j: nat)
    requires j < |k1|
    ensures Governing(k1 + k2, j) == Governing(k1, j)
  {
    assert (k1 + k2)[j] == k1[j];
    if j > 0 && k1[j].Plain? {
      GoverningPrefix(k1, k2, j - 1);
    }
  }
}
