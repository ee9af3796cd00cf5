/** Grouping the entries of all fragments by topic and rendering the new
    changelog block: `readChangeLogs`, `formatChangeLog`,
    `formatLogEntryList`, `formatLogEntry` and `releaseNamePattern`. */
module Render {
  import opened Text
  import opened Markers
  import opened Fragment

  /** The entries of topic `t`, in their original order. */
  function Filter(entries: seq<ChangelogEntry>, t: Topic): seq<ChangelogEntry> {
    if entries == [] then []
    else (if entries[0].topic == t then [entries[0]] else []) + Filter(entries[1..], t)
  }

  lemma {:induction false} FilterAppend(a: seq<ChangelogEntry>, b: seq<ChangelogEntry>, t: Topic)
    ensures Filter(a + b, t) == Filter(a, t) + Filter(b, t)
  {
    if a == [] {
      assert a + b == b;
    } else {
      var head := if a[0].topic == t then [a[0]] else [];
      assert (a + b)[0] == a[0];
      assert (a + b)[1..] == a[1..] + b;
      FilterAppend(a[1..], b, t);
      assert Filter(a + b, t) == head + (Filter(a[1..], t) + Filter(b, t));
      assert Filter(a, t) == head + Filter(a[1..], t);
    }
  }

  /** Filtering keeps exactly the entries of the topic, each as often as it
      occurs. */
  lemma {:induction false} FilterContents(entries: seq<ChangelogEntry>, t: Topic)
    ensures forall e :: e in Filter(entries, t) <==> e in entries && e.topic == t
    ensures Filter(entries, t) == [] <==> forall e :: e in entries ==> e.topic != t
  {
    if entries != [] {
      FilterContents(entries[1..], t);
      assert entries == [entries[0]] + entries[1..];
    }
  }

  /** Every entry lands in exactly one of the two groups. */
  lemma {:induction false} FilterPartitions(entries: seq<ChangelogEntry>)
    ensures multiset(Filter(entries, Public)) + multiset(Filter(entries, Private)) == multiset(entries)
  {
    if entries != [] {
      FilterPartitions(entries[1..]);
      assert entries == [entries[0]] + entries[1..];
    }
  }

  /** `Collectors.groupingBy { it.topic }`: each entry is appended to the
      list of its topic, a list being created for the first entry of a
      topic. The grouping is stable, and a topic without entries has no
      list. */
  function GroupByTopic(entries: seq<ChangelogEntry>): (groups: map<Topic, seq<ChangelogEntry>>)
    ensures forall t :: t in groups <==> Filter(entries, t) != []
    ensures forall t :: t in groups ==> groups[t] == Filter(entries, t)
    decreases |entries|
  {
    if entries == [] then map[]
    else
      var init, e := entries[..|entries| - 1], entries[|entries| - 1];
      var g := GroupByTopic(init);
      GroupSnoc(init, e);
      assert entries == init + [e];
      g[e.topic := (if e.topic in g then g[e.topic] else []) + [e]]
  }

  lemma GroupSnoc(init: seq<ChangelogEntry>, e: ChangelogEntry)
    ensures forall t :: Filter(init + [e], t) == Filter(init, t) + if e.topic == t then [e] else []
  {
    forall t ensures Filter(init + [e], t) == Filter(init, t) + if e.topic == t then [e] else [] {
      FilterAppend(init, [e], t);
      assert Filter([e], t) == if e.topic == t then [e] else [];
    }
  }

  /** `formatLogEntry`: the entry's text followed by its task tag. The line
      ends with the tag, and removing the tag, as reading a fragment does,
      leaves the text and the space before the tag. */
  function FormatLogEntry(e: ChangelogEntry): (line: string)
    ensures EndsWith(line, TaskTag(e.task))
    ensures RemoveSuffix(line, TaskTag(e.task)) == e.text + " "
  {
    var line := e.text + " " + TaskTag(e.task);
    assert line[|line| - |TaskTag(e.task)|..] == TaskTag(e.task);
    RemoveSuffixOfAppended(e.text + " ", TaskTag(e.task));
    line
  }

  /** `joinToString(separator)`: starts with the first item and ends with
      the last. */
  function Join(items: seq<string>, separator: string): (r: string)
    ensures items != [] ==> |items[0]| <= |r| && r[..|items[0]|] == items[0]
    ensures items != [] ==> EndsWith(r, items[|items| - 1])
    decreases |items|
  {
    if items == [] then ""
    else if |items| == 1 then items[0]
    else
      var init := Join(items[..|items| - 1], separator);
      var r := init + separator + items[|items| - 1];
      assert items[..|items| - 1][0] == items[0];
      assert r[..|items[0]|] == init[..|items[0]|];
      assert r[|r| - |items[|items| - 1]|..] == items[|items| - 1];
      r
  }

  /** `formatLogEntryList`: the rendered entries, one per line, and a line
      separator after the last. The empty list renders as a lone separator;
      otherwise the text starts with the first entry's line. */
  function FormatLogEntryList(entries: seq<ChangelogEntry>, nl: string): (r: string)
    ensures EndsWith(r, nl)
    ensures entries == [] ==> r == nl
    ensures entries != [] ==>
      |FormatLogEntry(entries[0])| <= |r| && r[..|FormatLogEntry(entries[0])|] == FormatLogEntry(entries[0])
  {
    var items := seq(|entries|, i requires 0 <= i < |entries| => FormatLogEntry(entries[i]));
    var r := Join(items, nl) + nl;
    assert r[|r| - |nl|..] == nl;
    assert entries != [] ==> items[0] == FormatLogEntry(entries[0]);
    r
  }

  /** The rendered list grows by one line per entry: the empty list is a
      lone separator, and each further entry adds its rendering and a
      separator, the separator before it replacing the final one. */
  lemma EntryListSnoc(entries: seq<ChangelogEntry>, e: ChangelogEntry, nl: string)
    ensures FormatLogEntryList([], nl) == nl
    ensures FormatLogEntryList(entries + [e], nl)
         == (if entries == [] then "" else FormatLogEntryList(entries, nl)) + FormatLogEntry(e) + nl
  {
    var n := |entries|;
    var all := entries + [e];
    var items := seq(n, i requires 0 <= i < n => FormatLogEntry(entries[i]));
    var more := seq(n + 1, i requires 0 <= i < n + 1 => FormatLogEntry(all[i]));
    assert more[..n] == items;
    assert more[n] == FormatLogEntry(e);
  }

  /** What `combineToChangelog` adds for one topic. */
  function Section(groups: map<Topic, seq<ChangelogEntry>>, t: Topic, nl: string): string {
    if t in groups then FormatTopic(t) + nl + FormatLogEntryList(groups[t], nl) + nl else ""
  }

  /** The sections of the given topics, in that order. */
  function Sections(groups: map<Topic, seq<ChangelogEntry>>, topics: seq<Topic>, nl: string): string
    decreases |topics|
  {
    if topics == [] then ""
    else Sections(groups, topics[..|topics| - 1], nl) + Section(groups, topics[|topics| - 1], nl)
  }

  /** `formatChangeLog`, with the release name and the line separator
      given: the release name, a blank line, then the public section if
      there are public entries and the private section if there are
      private ones. */
  method FormatChangeLog(groups: map<Topic, seq<ChangelogEntry>>, releaseName: string, nl: string)
    returns (changeLogEntry: string)
    ensures changeLogEntry == releaseName + nl + nl + Section(groups, Public, nl) + Section(groups, Private, nl)
  {
    changeLogEntry := releaseName + nl + nl;
    ghost var heading := changeLogEntry;
    for i := 0 to |AllTopics|
      invariant changeLogEntry == heading + Sections(groups, AllTopics[..i], nl)
    {
      var topic := AllTopics[i];
      changeLogEntry := CombineToChangelog(changeLogEntry, groups, topic, nl);
      assert changeLogEntry == heading + Sections(groups, AllTopics[..i + 1], nl) by {
        SectionsStep(groups, AllTopics, i, nl);
        AppendAssoc(heading, Sections(groups, AllTopics[..i], nl), Section(groups, topic, nl));
      }
    }
    assert AllTopics[..|AllTopics|] == AllTopics;
    assert changeLogEntry == heading + Section(groups, Public, nl) + Section(groups, Private, nl) by {
      SectionsOfAllTopics(groups, nl);
      AppendAssoc(heading, Section(groups, Public, nl), Section(groups, Private, nl));
    }
  }

  /** The nested `combineToChangelog`: appends the section of `topic`. */
  method CombineToChangelog(changeLogEntry: string, groups: map<Topic, seq<ChangelogEntry>>, topic: Topic, nl: string)
    returns (updated: string)
    ensures updated == changeLogEntry + Section(groups, topic, nl)
  {
    updated := changeLogEntry;
    if topic in groups {
      var header, list := FormatTopic(topic), FormatLogEntryList(groups[topic], nl);
      updated := updated + header + nl;
      updated := updated + list;
      updated := updated + nl;
      assert updated == changeLogEntry + (header + nl + list + nl) by {
        AppendAssoc(changeLogEntry, header + nl + list, nl);
        AppendAssoc(changeLogEntry, header + nl, list);
        AppendAssoc(changeLogEntry, header, nl);
      }
    }
  }

  lemma SectionsOfAllTopics(groups: map<Topic, seq<ChangelogEntry>>, nl: string)
    ensures Sections(groups, AllTopics, nl) == Section(groups, Public, nl) + Section(groups, Private, nl)
  {
    var pub, priv := Section(groups, Public, nl), Section(groups, Private, nl);
    assert AllTopics[..1] == [Public];
    assert Sections(groups, [], nl) == "";
    SectionsSnoc(groups, [], Public, nl);
    assert [] + [Public] == [Public];
    assert Sections(groups, [Public], nl) == "" + pub == pub;
    SectionsSnoc(groups, [Public], Private, nl);
    assert [Public] + [Private] == AllTopics;
  }

  lemma SectionsSnoc(groups: map<Topic, seq<ChangelogEntry>>, topics: seq<Topic>, t: Topic, nl: string)
    ensures Sections(groups, topics + [t], nl) == Sections(groups, topics, nl) + Section(groups, t, nl)
  {
    assert (topics + [t])[..|topics|] == topics;
  }

  lemma SectionsStep(groups: map<Topic, seq<ChangelogEntry>>, topics: seq<Topic>, i: nat, nl: string)
    requires i < |topics|
    ensures Sections(groups, topics[..i + 1], nl) == Sections(groups, topics[..i], nl) + Section(groups, topics[i], nl)
  {
    assert topics[..i + 1][..i] == topics[..i];
  }

  /** A section is rendered exactly for a topic that has entries, and it
      starts with that topic's header. */
  lemma SectionPresence(groups: map<Topic, seq<ChangelogEntry>>, t: Topic, nl: string)
    ensures Section(groups, t, nl) != "" <==> t in groups
    ensures t in groups ==> Section(groups, t, nl)[..|FormatTopic(t)|] == FormatTopic(t)
  {
    if t in groups {
      var h, list := FormatTopic(t), FormatLogEntryList(groups[t], nl);
      AppendAssoc(h, nl, list);
      AppendAssoc(h, nl + list, nl);
      PrefixOfConcat(h, nl + list + nl);
    }
  }

  /** Proof aid: the head of a concatenation is its first part. */
  lemma PrefixOfConcat(h: string, rest: string)
    ensures (h + rest)[..|h|] == h
  {
  }

  /** A plain line that already ends with its task tag loses the tag when
      read and gets it back, unchanged, when rendered. */
  lemma {:induction false} TagRoundTrip(s: string, task: string, t: Topic)
    requires IsTrimmed(s) && !HasKey(s, Public) && !HasKey(s, Private)
    ensures Classify(task, s + " " + TaskTag(task)) == Plain(s)
    ensures FormatLogEntry(ChangelogEntry(t, task, s)) == s + " " + TaskTag(task)
  {
    RemoveSuffixOfAppended(s + " ", TaskTag(task));
    assert s + " " + TaskTag(task) == (s + " ") + TaskTag(task);
    TrimPadded(s, " ");
  }

  /** Reading a rendered plain entry back within its fragment gives the
      same text: the tag rendering adds is the one reading strips. */
  lemma {:induction false} RenderedEntryReadsBack(e: ChangelogEntry)
    requires IsTrimmed(e.text) && !HasKey(e.text, Public) && !HasKey(e.text, Private)
    ensures Classify(e.task, FormatLogEntry(e)) == Plain(e.text)
  {
    TagRoundTrip(e.text, e.task, e.topic);
  }

  /** `releaseNamePattern`: the build name, " vom ", then the date. */
  function ReleaseNamePattern(buildName: string, date: string): (name: string)
    ensures |name| == |buildName| + 5 + |date|
    ensures name[..|buildName|] == buildName
    ensures name[|buildName|..|buildName| + 5] == " vom "
    ensures name[|buildName| + 5..] == date
  {
    buildName + " vom " + date
  }

  // ----- The whole merge -----

  /** The entries of one fragment, as `ReadChangelogEntry` returns them. */
  function FileEntries(file: ChangelogFile): seq<ChangelogEntry> {
    var task := TaskName(file.name);
    Entries(task, Kinds(task, file.content))
  }

  /** Lines that start with a marker line can be split off into a
      fragment of their own without changing any entry. */
  lemma FileEntriesAppend(name: string, l1: seq<string>, l2: seq<string>)
    requires l2 != [] && Classify(TaskName(name), l2[0]).Marker?
    ensures FileEntries(ChangelogFile(name, l1 + l2))
         == FileEntries(ChangelogFile(name, l1)) + FileEntries(ChangelogFile(name, l2))
  {
    var task := TaskName(name);
    var k2 := Kinds(task, l2);
    assert k2[0] == Classify(task, l2[0]);
    KindsAppend(task, l1, l2);
    ExpectedSplit(task, Kinds(task, l1), k2);
  }

  /** The entries of all fragments, in the order the fragments are given. */
  function AllEntries(files: seq<ChangelogFile>): seq<ChangelogEntry>
    decreases |files|
  {
    if files == [] then [] else AllEntries(files[..|files| - 1]) + FileEntries(files[|files| - 1])
  }

  /** `readChangeLogs`, with the listed fragments and the release name
      given: the entries of all fragments, grouped by topic and rendered. */
  method ReadChangeLogs(files: seq<ChangelogFile>, releaseName: string, nl: string)
    returns (changelog: string)
    ensures var groups := GroupByTopic(AllEntries(files));
      changelog == releaseName + nl + nl + Section(groups, Public, nl) + Section(groups, Private, nl)
  {
    var entries: seq<ChangelogEntry> := [];
    for i := 0 to |files|
      invariant entries == AllEntries(files[..i])
    {
      var fileEntries := ReadChangelogEntry(files[i]);
      assert files[..i + 1][..i] == files[..i];
      entries := entries + fileEntries;
    }
    assert files[..|files|] == files;
    changelog := FormatChangeLog(GroupByTopic(entries), releaseName, nl);
  }

  /** The group of a topic is the concatenation, fragment by fragment, of
      that fragment's entries of the topic. */
  lemma {:induction false} GroupOfFiles(files: seq<ChangelogFile>, t: Topic)
    ensures Filter(AllEntries(files), t) == FilterEach(files, t)
    decreases |files|
  {
    if files != [] {
      var init := files[..|files| - 1];
      GroupOfFiles(init, t);
      FilterAppend(AllEntries(init), FileEntries(files[|files| - 1]), t);
    }
  }

  function FilterEach(files: seq<ChangelogFile>, t: Topic): seq<ChangelogEntry>
    decreases |files|
  {
    if files == [] then [] else FilterEach(files[..|files| - 1], t) + Filter(FileEntries(files[|files| - 1]), t)
  }
}
