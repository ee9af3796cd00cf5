/** The concrete behaviour the merger's unit tests expect, derived from the
    model: marker recognition, the task name, and the entries of small
    fragments. */
module Examples {
  import opened Text
  import opened Markers
  import opened Removal
  import opened Fragment
  import opened Render

  // ----- Helpers for concrete lines -----

  /** A line in which no character lower-cases to the `i`-th character of
      the key has no marker of that topic. */
  lemma NoKeyWithout(s: string, t: Topic, i: nat)
    requires i < |Key(t)|
    requires forall c :: c in s ==> Lower(c) != Key(t)[i]
    ensures !HasKey(s, t)
  {
    forall k | 0 <= k && k + |Key(t)| <= |s|
      ensures !KeyAt(s, k, t)
    {
      assert s[k + i] in s;
      assert LowerSeq(s[k..k + |Key(t)|])[i] == Lower(s[k + i]);
    }
  }

  /** A line without a colon has no marker at all. */
  lemma NoColonNoKey(s: string, t: Topic)
    requires ':' !in s
    ensures !HasKey(s, t)
  {
    NoKeyWithout(s, t, |Key(t)| - 1);
  }

  /** A trimmed line that does not end with `]` is left as it is by the
      first rewrite of the loop body. */
  lemma StripUntagged(task: string, line: string)
    requires IsTrimmed(line) && line != [] && line[|line| - 1] != ']'
    ensures StripLine(line, task) == line
  {
    var tag := TaskTag(task);
    assert tag[|tag| - 1] == ']';
    assert !EndsWith(line, tag) by {
      if |tag| <= |line| {
        assert line[|line| - |tag|..][|tag| - 1] == line[|line| - 1];
      }
    }
  }

  /** Such a line without a colon is plain text. */
  lemma PlainLine(task: string, line: string)
    requires IsTrimmed(line) && line != [] && line[|line| - 1] != ']' && ':' !in line
    ensures Classify(task, line) == Plain(line)
  {
    StripUntagged(task, line);
    NoColonNoKey(line, Public);
    NoColonNoKey(line, Private);
  }

  /** A markdown heading `# <name>:`, then spaces up to `f`, then text
      without a colon, contains the marker, and `remove` keeps the text. */
  lemma HeadingRemoved(line: string, f: nat, t: Topic)
    requires 2 + |Key(t)| <= f <= |line|
    requires line[0] == '#' && line[1] == ' ' && KeyAt(line, 2, t)
    requires forall k :: 2 + |Key(t)| <= k < f ==> IsRegexSpace(line[k])
    requires f == |line| || !IsRegexSpace(line[f])
    requires ':' !in line[f..]
    ensures ContainsTopic(line, t)
    ensures RemoveTopic(line, t) == line[f..]
  {
    NoColonNoKey(line[f..], t);
    RemoveMarkerAt(line, 0, 0, 1, 2, f, t);
  }

  /** Such a heading line, trimmed and not ending in `]`, switches to the
      topic and keeps the text. A private heading needs the line to be free
      of the public key, which takes priority. */
  lemma HeadingLine(task: string, line: string, f: nat, t: Topic)
    requires 2 + |Key(t)| <= f <= |line|
    requires line[0] == '#' && line[1] == ' ' && KeyAt(line, 2, t)
    requires forall k :: 2 + |Key(t)| <= k < f ==> IsRegexSpace(line[k])
    requires f == |line| || !IsRegexSpace(line[f])
    requires IsTrimmed(line) && line[|line| - 1] != ']' && ':' !in line[f..]
    requires t == Private ==> !HasKey(line, Public)
    ensures Classify(task, line) == Marker(t, line[f..])
  {
    StripUntagged(task, line);
    HeadingRemoved(line, f, t);
  }

  /** A line with the key of `t` at `k` contains a marker of `t`. */
  lemma ContainsAt(s: string, k: nat, t: Topic)
    requires KeyAt(s, k, t)
    ensures ContainsTopic(s, t)
  {
  }

  /** A line without a colon contains no marker. */
  lemma NoColonNoMarker(s: string, t: Topic)
    requires ':' !in s
    ensures !ContainsTopic(s, t)
  {
    NoColonNoKey(s, t);
  }

  // ----- `containsTopic` -----

  /** The topic name in any case, then a colon, is a marker wherever it
      stands: `private:`, `Private:`, `#private:`, `# private:` and
      `# private: ` all contain the private marker. */
  lemma NameAndColonIsMarker(before: string, name: string, after: string, t: Topic)
    requires LowerSeq(name) == Name(t)
    ensures ContainsTopic(before + name + ":" + after, t)
  {
    var s := before + name + ":" + after;
    assert s[|before|..|before| + |Key(t)|] == name + ":";
    assert LowerSeq(name + ":") == Key(t);
    ContainsAt(s, |before|, t);
  }

  /** The topic name without its colon is not a marker. */
  lemma NameAloneIsNoMarker(t: Topic)
    ensures !ContainsTopic(Name(t), t)
  {
    NoColonNoMarker(Name(t), t);
  }

  // Proof aids: literal string identities that spell the lines of the
  // `containsTopic` tests the way `NameAndColonIsMarker` builds them. They
  // are kept out of the test lemmas so that each literal is unfolded once.
  lemma PrivateForms()
    ensures "" + "private" + ":" + "" == "private:"
    ensures "" + "Private" + ":" + "" == "Private:"
    ensures "#" + "private" + ":" + "" == "#private:"
    ensures "# " + "private" + ":" + "" == "# private:"
    ensures "# " + "private" + ":" + " " == "# private: "
  {
  }

  lemma PublicForms()
    ensures "" + "public" + ":" + "" == "public:"
    ensures "" + "Public" + ":" + "" == "Public:"
    ensures "#" + "public" + ":" + "" == "#public:"
    ensures "# " + "public" + ":" + "" == "# public:"
    ensures "# " + "public" + ":" + " " == "# public: "
  {
  }

  lemma ContainsTopicPrivate()
    ensures ContainsTopic("private:", Private)
    ensures ContainsTopic("Private:", Private)
    ensures ContainsTopic("#private:", Private)
    ensures ContainsTopic("# private:", Private)
    ensures ContainsTopic("# private: ", Private)
    ensures !ContainsTopic("private", Private)
  {
    PrivateForms();
    NameAndColonIsMarker("", "private", "", Private);
    NameAndColonIsMarker("", "Private", "", Private);
    NameAndColonIsMarker("#", "private", "", Private);
    NameAndColonIsMarker("# ", "private", "", Private);
    NameAndColonIsMarker("# ", "private", " ", Private);
    NameAloneIsNoMarker(Private);
  }

  lemma ContainsTopicPublic()
    ensures ContainsTopic("public:", Public)
    ensures ContainsTopic("Public:", Public)
    ensures ContainsTopic("#public:", Public)
    ensures ContainsTopic("# public:", Public)
    ensures ContainsTopic("# public: ", Public)
    ensures !ContainsTopic("public", Public)
  {
    PublicForms();
    NameAndColonIsMarker("", "public", "", Public);
    NameAndColonIsMarker("", "Public", "", Public);
    NameAndColonIsMarker("#", "public", "", Public);
    NameAndColonIsMarker("# ", "public", "", Public);
    NameAndColonIsMarker("# ", "public", " ", Public);
    NameAloneIsNoMarker(Public);
  }

  // ----- Lines -----

  /** Text that the parser keeps as it is on a line of its own: trimmed,
      not empty, without a colon and not ending with `]`. */
  predicate PlainText(line: string) {
    IsTrimmed(line) && line != [] && line[|line| - 1] != ']' && ':' !in line
  }

  /** A private heading `# <name>:` followed by text without a colon holds
      no public key: the only colon closes the private name. */
  lemma PrivateHeadingHasNoPublicKey(heading: string, rest: string)
    requires LowerSeq(heading) == Name(Private) && ':' !in rest
    ensures !HasKey("# " + heading + ":" + rest, Public)
  {
    var line := "# " + heading + ":" + rest;
    forall k | 0 <= k && k + |Key(Public)| <= |line|
      ensures !KeyAt(line, k, Public)
    {
      assert LowerSeq(line[k..k + 7])[6] == Lower(line[k + 6]);
      if k == 3 {
        assert line[3] == heading[1];
        assert LowerSeq(heading)[1] == Lower(heading[1]) == 'r';
        assert LowerSeq(line[k..k + 7])[0] == Lower(line[3]);
      } else if k + 6 < 9 {
        assert line[k + 6] == heading[k + 4];
        assert LowerSeq(heading)[k + 4] == Lower(heading[k + 4]);
      } else {
        assert line[k + 6] == rest[k + 6 - 10];
        assert line[k + 6] in rest;
      }
    }
  }

  /** `# <name>:` alone on its line switches to the topic whose name it is
      in any case, and leaves nothing to emit. */
  lemma HeadingAlone(task: string, heading: string, t: Topic)
    requires LowerSeq(heading) == Name(t)
    ensures Classify(task, "# " + heading + ":") == Marker(t, "")
  {
    var line := "# " + heading + ":";
    assert line[2..2 + |Key(t)|] == heading + ":";
    assert LowerSeq(heading + ":") == Key(t);
    if t == Private {
      PrivateHeadingHasNoPublicKey(heading, "");
      assert line == "# " + heading + ":" + "";
    }
    HeadingLine(task, line, |line|, t);
  }

  /** `# <name>: <text>` switches to the topic and keeps the text. */
  lemma OneLiner(task: string, heading: string, text: string, t: Topic)
    requires LowerSeq(heading) == Name(t) && PlainText(text) && !IsWhitespace(text[0])
    ensures Classify(task, "# " + heading + ": " + text) == Marker(t, text)
  {
    var line := "# " + heading + ": " + text;
    var f := 3 + |Key(t)|;
    assert line == "# " + heading + ":" + (" " + text);
    assert line[2..2 + |Key(t)|] == heading + ":";
    assert LowerSeq(heading + ":") == Key(t);
    assert line[f..] == text;
    if t == Private {
      PrivateHeadingHasNoPublicKey(heading, " " + text);
    }
    HeadingLine(task, line, f, t);
  }

  // ----- Fragments, by the kinds of their lines -----

  /** One line: an entry exactly when the line emits, public unless the
      line is a marker. */
  lemma OneKind(task: string, kinds: seq<LineKind>, k: LineKind)
    requires |kinds| == 1 && kinds[0] == k
    ensures Expected(task, kinds, 1)
         == if Emits(k) then [ChangelogEntry(if k.Marker? then k.topic else Public, task, TextOf(k))] else []
  {
    assert Expected(task, kinds, 0) == [];
  }

  /** A bare marker line, then a plain line: one entry, of the marker's
      topic. */
  lemma HeadedSection(task: string, kinds: seq<LineKind>, t: Topic, text: string)
    requires |kinds| == 2 && kinds[0] == Marker(t, "") && kinds[1] == Plain(text)
    ensures Expected(task, kinds, 2) == [ChangelogEntry(t, task, text)]
  {
    assert IsBlank("");
    assert Expected(task, kinds, 0) == [];
    assert Expected(task, kinds, 1) == [];
    assert Governing(kinds, 1) == Governing(kinds, 0) == t;
  }

  /** A bare marker line, then two plain lines: two entries, of the
      marker's topic. */
  lemma LongSection(task: string, kinds: seq<LineKind>, t: Topic, a1: string, a2: string)
    requires |kinds| == 3 && kinds[0] == Marker(t, "") && kinds[1] == Plain(a1) && kinds[2] == Plain(a2)
    ensures Expected(task, kinds, 3) == [ChangelogEntry(t, task, a1), ChangelogEntry(t, task, a2)]
  {
    assert IsBlank("");
    GoverningIsNearestMarker(kinds, 0, 1);
    GoverningIsNearestMarker(kinds, 0, 2);
    assert Expected(task, kinds, 0) == [];
    assert Expected(task, kinds, 1) == [];
  }

  // ----- Fragments, by their lines -----

  /** A fragment of one plain line yields that line as a public entry. */
  lemma PlainLineFile(name: string, line: string)
    requires PlainText(line)
    ensures FileEntries(ChangelogFile(name, [line])) == [ChangelogEntry(Public, TaskName(name), line)]
  {
    var task := TaskName(name);
    PlainLine(task, line);
    var kinds := Kinds(task, [line]);
    assert kinds[0] == Classify(task, line);
    OneKind(task, kinds, Plain(line));
  }

  /** A fragment of one line `# <name>: <text>` yields the text as an entry
      of that topic. */
  lemma OneLinerFile(name: string, heading: string, text: string, t: Topic)
    requires LowerSeq(heading) == Name(t) && PlainText(text) && !IsWhitespace(text[0])
    ensures FileEntries(ChangelogFile(name, ["# " + heading + ": " + text])) == [ChangelogEntry(t, TaskName(name), text)]
  {
    var task := TaskName(name);
    var line := "# " + heading + ": " + text;
    OneLiner(task, heading, text, t);
    var kinds := Kinds(task, [line]);
    assert kinds[0] == Classify(task, line);
    assert !IsBlank(text);
    OneKind(task, kinds, Marker(t, text));
  }

  /** A heading alone on its line, then one plain line: one entry of the
      heading's topic. */
  lemma SectionFile(name: string, heading: string, t: Topic, line: string)
    requires LowerSeq(heading) == Name(t) && PlainText(line)
    ensures FileEntries(ChangelogFile(name, ["# " + heading + ":", line])) == [ChangelogEntry(t, TaskName(name), line)]
  {
    var task := TaskName(name);
    var h := "# " + heading + ":";
    HeadingAlone(task, heading, t);
    PlainLine(task, line);
    var kinds := Kinds(task, [h, line]);
    assert kinds[0] == Classify(task, h);
    assert kinds[1] == Classify(task, line);
    HeadedSection(task, kinds, t, line);
  }

  /** Line `i` is a heading alone on its line. */
  lemma HeadingKindAt(task: string, lines: seq<string>, i: nat, heading: string, t: Topic)
    requires i < |lines| && lines[i] == "# " + heading + ":" && LowerSeq(heading) == Name(t)
    ensures Kinds(task, lines)[i] == Marker(t, "")
  {
    HeadingAlone(task, heading, t);
  }

  /** Line `i` is plain text. */
  lemma PlainKindAt(task: string, lines: seq<string>, i: nat)
    requires i < |lines| && PlainText(lines[i])
    ensures Kinds(task, lines)[i] == Plain(lines[i])
  {
    PlainLine(task, lines[i]);
  }

  /** A heading alone on its line, then two plain lines: two entries of
      the heading's topic. */
  lemma LongSectionFile(name: string, heading: string, t: Topic, a1: string, a2: string)
    requires LowerSeq(heading) == Name(t) && PlainText(a1) && PlainText(a2)
    ensures FileEntries(ChangelogFile(name, ["# " + heading + ":", a1, a2]))
         == [ChangelogEntry(t, TaskName(name), a1), ChangelogEntry(t, TaskName(name), a2)]
  {
    var task := TaskName(name);
    LongSectionKinds(task, heading, t, a1, a2);
    LongSection(task, Kinds(task, ["# " + heading + ":", a1, a2]), t, a1, a2);
  }

  lemma LongSectionKinds(task: string, heading: string, t: Topic, a1: string, a2: string)
    requires LowerSeq(heading) == Name(t) && PlainText(a1) && PlainText(a2)
    ensures var kinds := Kinds(task, ["# " + heading + ":", a1, a2]);
      |kinds| == 3 && kinds[0] == Marker(t, "") && kinds[1] == Plain(a1) && kinds[2] == Plain(a2)
  {
    var lines := ["# " + heading + ":", a1, a2];
    assert Kinds(task, lines)[0] == Marker(t, "") by { HeadingKindAt(task, lines, 0, heading, t); }
    assert Kinds(task, lines)[1] == Plain(a1) by { PlainKindAt(task, lines, 1); }
    assert Kinds(task, lines)[2] == Plain(a2) by { PlainKindAt(task, lines, 2); }
  }

  /** Two sections, each a heading alone on its line and two plain lines:
      the lines of each section get the topic of its heading. */
  lemma TwoSectionsFile(name: string, h1: string, t1: Topic, a1: string, a2: string,
                        h2: string, t2: Topic, b1: string, b2: string)
    requires LowerSeq(h1) == Name(t1) && PlainText(a1) && PlainText(a2)
    requires LowerSeq(h2) == Name(t2) && PlainText(b1) && PlainText(b2)
    ensures var task := TaskName(name);
      FileEntries(ChangelogFile(name, ["# " + h1 + ":", a1, a2, "# " + h2 + ":", b1, b2]))
        == [ChangelogEntry(t1, task, a1), ChangelogEntry(t1, task, a2),
            ChangelogEntry(t2, task, b1), ChangelogEntry(t2, task, b2)]
  {
    var first, second := ["# " + h1 + ":", a1, a2], ["# " + h2 + ":", b1, b2];
    assert first + second == ["# " + h1 + ":", a1, a2, "# " + h2 + ":", b1, b2];
    SplitBeforeHeading(name, first, h2, t2, second);
    LongSectionFile(name, h1, t1, a1, a2);
    LongSectionFile(name, h2, t2, b1, b2);
  }

  /** A fragment splits before a heading alone on its line. */
  lemma SplitBeforeHeading(name: string, first: seq<string>, heading: string, t: Topic, second: seq<string>)
    requires LowerSeq(heading) == Name(t) && second != [] && second[0] == "# " + heading + ":"
    ensures FileEntries(ChangelogFile(name, first + second))
         == FileEntries(ChangelogFile(name, first)) + FileEntries(ChangelogFile(name, second))
  {
    HeadingAlone(TaskName(name), heading, t);
    FileEntriesAppend(name, first, second);
  }

  /** A plain line that already carries the fragment's task tag: the tag
      is not doubled. */
  lemma TaggedLineFile(name: string, text: string)
    requires PlainText(text)
    ensures FileEntries(ChangelogFile(name, [text + " " + TaskTag(TaskName(name))]))
         == [ChangelogEntry(Public, TaskName(name), text)]
  {
    var task := TaskName(name);
    var line := text + " " + TaskTag(task);
    NoColonNoKey(text, Public);
    NoColonNoKey(text, Private);
    TagRoundTrip(text, task, Public);
    var kinds := Kinds(task, [line]);
    assert kinds[0] == Classify(task, line);
    OneKind(task, kinds, Plain(text));
  }

  // ----- The unit tests' fragments -----

  lemma TaskOfIts001()
    ensures TaskName("ITS-001.md") == "ITS-001"
  {
    TaskNameOfMdFile("ITS-001", ".md");
    assert "ITS-001" + ".md" == "ITS-001.md";
  }

  // Proof aids: literal string identities that spell the test lines the way
  // the generic lemmas about lines and fragments build them. They are kept
  // out of the test lemmas so that each literal is unfolded once.
  lemma PublicHeadingText()
    ensures "# " + "Public" + ":" == "# Public:"
  {
  }

  lemma PrivateHeadingText()
    ensures "# " + "Private" + ":" == "# Private:"
  {
  }

  lemma PublicOneLinerText()
    ensures "# " + "Public" + ": " + "* I'am a public one liner" == "# Public: * I'am a public one liner"
  {
  }

  lemma PrivateOneLinerText()
    ensures "# " + "Private" + ": " + "* I'am a private one liner" == "# Private: * I'am a private one liner"
  {
  }

  lemma TaggedText()
    ensures "* I already contained my task" + " " + TaskTag("ITS-001") == "* I already contained my task [ITS-001]"
  {
  }

  lemma DefaultPublic()
    ensures FileEntries(ChangelogFile("ITS-001.md", ["* I'am default public"]))
         == [ChangelogEntry(Public, "ITS-001", "* I'am default public")]
  {
    TaskOfIts001();
    PlainLineFile("ITS-001.md", "* I'am default public");
  }

  lemma PublicInOneLine()
    ensures FileEntries(ChangelogFile("ITS-001.md", ["# Public: * I'am a public one liner"]))
         == [ChangelogEntry(Public, "ITS-001", "* I'am a public one liner")]
  {
    TaskOfIts001();
    PublicOneLinerText();
    OneLinerFile("ITS-001.md", "Public", "* I'am a public one liner", Public);
  }

  lemma PrivateInOneLine()
    ensures FileEntries(ChangelogFile("ITS-001.md", ["# Private: * I'am a private one liner"]))
         == [ChangelogEntry(Private, "ITS-001", "* I'am a private one liner")]
  {
    TaskOfIts001();
    PrivateOneLinerText();
    OneLinerFile("ITS-001.md", "Private", "* I'am a private one liner", Private);
  }

  lemma PrivateSection()
    ensures FileEntries(ChangelogFile("ITS-001.md", ["# Private:", "* I'am a private section"]))
         == [ChangelogEntry(Private, "ITS-001", "* I'am a private section")]
  {
    TaskOfIts001();
    PrivateHeadingText();
    SectionFile("ITS-001.md", "Private", Private, "* I'am a private section");
  }

  lemma PublicSection()
    ensures FileEntries(ChangelogFile("ITS-001.md", ["# Public:", "* I'am a public section"]))
         == [ChangelogEntry(Public, "ITS-001", "* I'am a public section")]
  {
    TaskOfIts001();
    PublicHeadingText();
    SectionFile("ITS-001.md", "Public", Public, "* I'am a public section");
  }

  lemma PrivateMultiLineTexts()
    ensures PlainText("* I'am a private section multi line 1") && PlainText("* I'am a private section multi line 2")
  {
  }

  lemma PublicMultiLineTexts()
    ensures PlainText("* I'am a public section multi line 1") && PlainText("* I'am a public section multi line 2")
  {
  }

  lemma PrivateAndPublicSection()
    ensures FileEntries(ChangelogFile("ITS-001.md", [
              "# Private:",
              "* I'am a private section multi line 1",
              "* I'am a private section multi line 2",
              "# Public:",
              "* I'am a public section multi line 1",
              "* I'am a public section multi line 2"]))
         == [ChangelogEntry(Private, "ITS-001", "* I'am a private section multi line 1"),
             ChangelogEntry(Private, "ITS-001", "* I'am a private section multi line 2"),
             ChangelogEntry(Public, "ITS-001", "* I'am a public section multi line 1"),
             ChangelogEntry(Public, "ITS-001", "* I'am a public section multi line 2")]
  {
    TaskOfIts001();
    PublicHeadingText();
    PrivateHeadingText();
    PrivateMultiLineTexts();
    PublicMultiLineTexts();
    TwoSectionsFile("ITS-001.md",
                    "Private", Private, "* I'am a private section multi line 1", "* I'am a private section multi line 2",
                    "Public", Public, "* I'am a public section multi line 1", "* I'am a public section multi line 2");
  }

  lemma PublicAndPrivateSection()
    ensures FileEntries(ChangelogFile("ITS-001.md", [
              "# Public:",
              "* I'am a public section multi line 1",
              "* I'am a public section multi line 2",
              "# Private:",
              "* I'am a private section multi line 1",
              "* I'am a private section multi line 2"]))
         == [ChangelogEntry(Public, "ITS-001", "* I'am a public section multi line 1"),
             ChangelogEntry(Public, "ITS-001", "* I'am a public section multi line 2"),
             ChangelogEntry(Private, "ITS-001", "* I'am a private section multi line 1"),
             ChangelogEntry(Private, "ITS-001", "* I'am a private section multi line 2")]
  {
    TaskOfIts001();
    PublicHeadingText();
    PrivateHeadingText();
    PrivateMultiLineTexts();
    PublicMultiLineTexts();
    TwoSectionsFile("ITS-001.md",
                    "Public", Public, "* I'am a public section multi line 1", "* I'am a public section multi line 2",
                    "Private", Private, "* I'am a private section multi line 1", "* I'am a private section multi line 2");
  }

  lemma AlreadyContainsTask()
    ensures FileEntries(ChangelogFile("ITS-001.md", ["* I already contained my task [ITS-001]"]))
         == [ChangelogEntry(Public, "ITS-001", "* I already contained my task")]
  {
    TaskOfIts001();
    TaggedText();
    TaggedLineFile("ITS-001.md", "* I already contained my task");
  }

  // ----- `remove` in the middle of a line -----

  /** Proof aid: the line below, spelled as its three parts. */
  lemma InnerLine()
    ensures "foo" + " # public: " + "bar" == "foo # public: bar"
  {
  }

  /** In `foo # public: bar` no match starts in `foo`, and the match that
      starts at the space before `#` runs up to `bar`. */
  lemma InnerMatchAt(s: string)
    requires s == "foo # public: bar"
    ensures forall k :: 0 <= k < 3 ==> MatchAt(s, k, Public).None?
    ensures MatchAt(s, 3, Public) == Some(14)
  {
    forall k | 0 <= k < 3
      ensures MatchAt(s, k, Public).None?
    {
      NoMatchInFoo(s, k);
    }
    assert s[3] == ' ' && s[4] == '#' && s[5] == ' ' && s[6] == 'p' && s[13] == ' ' && s[14] == 'b';
    SkipRunOver(s, 3, 3, Stars);
    SkipRunOver(s, 3, 4, Spaces);
    SkipRunOver(s, 4, 5, Hashes);
    SkipRunOver(s, 5, 6, Spaces);
    assert s[6..13] == "public:";
    assert LowerSeq("public:") == "public:";
    SkipRunOver(s, 13, 14, Spaces);
  }

  /** Proof aid: a match starting at a letter of `foo` needs the key there. */
  lemma NoMatchInFoo(s: string, k: nat)
    requires s == "foo # public: bar" && k < 3
    ensures MatchAt(s, k, Public).None?
  {
    assert s[k] in "foo";
    SkipRunOver(s, k, k, Stars);
    SkipRunOver(s, k, k, Spaces);
    SkipRunOver(s, k, k, Hashes);
    assert LowerSeq(s[k..k + 7])[0] == Lower(s[k]);
  }

  /** `remove` drops the marker together with the space before it and
      joins the text on both sides. */
  lemma InnerMarkerRemoved()
    ensures RemoveTopic("foo # public: bar", Public) == "foobar"
  {
    var before, marker, rest := "foo", " # public: ", "bar";
    InnerLine();
    InnerMatchAt(before + marker + rest);
    assert |before| == 3 && |before + marker| == 14;
    assert !HasKey(rest, Public);
    RemoveInnerMarker(before, marker, rest, Public);
    assert before + rest == "foobar";
  }
}
