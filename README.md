# Kochamer changelog merger, modelled in Dafny

Kochamer merges changelog fragments into one changelog file. A fragment is a
markdown file named after its task (`ITS-001.md`). Each of its lines is a
changelog entry, either public or private. A line holding a topic marker
(`# Public:`, `private:`, `** # PRIVATE:` and so on) switches the running
topic, and the line with the markers of the topic it switches to removed,
when not blank, is an entry itself. A public marker wins over a private one,
and markers of the other topic stay in the text (`# Private: a public: b`
switches to public with the entry `# Private: ab`).
The merger does four things:

- it reads every fragment into entries;
- it groups the entries by topic;
- it renders a block: a release name, a blank line, then a section for each
  topic that has entries, public first, each a `## Public:` or `## Private:`
  header followed by `text [task]` lines;
- it puts that block in front of the existing changelog file.

The model follows `src/Kochamer.kt` and is split into seven modules:

- `Text` (`text.dfy`): the ASCII part of the Kotlin string operations the
  merger uses (`trim`, `isBlank`, `removeSuffix`, case folding).
- `Markers` (`markers.dfy`): the topic marker `\**\s*#*\s*<name>:\s*`
  (case-insensitive), `formatTopic` and `containsTopic`. The matcher is
  written for this one pattern and is not a general regular-expression
  engine. Each of the four optional prefix runs is matched greedily, then the
  key `<name>:` is matched, then trailing spaces. For this pattern, that
  greedy match is also the first match a backtracking matcher finds, because
  the name starts with a letter that none of the prefix classes contains.
- `Removal` (`removal.dfy`): `remove`, a scan that drops the leftmost
  non-overlapping matches and copies the text between them, with what it
  keeps of a line whose marker comes first or after other text.
- `Fragment` (`fragment.dfy`): `readChangelogEntry` as a method with the
  source's loop. It is proved equal to a fold of one loop step (`Fold`/`Step`).
  The fold is in turn proved equal to a reference description that threads no
  state: `Expected`, in which each line's topic is the topic of the nearest
  marker line at or before it (`Governing`).
- `Render` (`render.dfy`): stable grouping (`Collectors.groupingBy`),
  `formatLogEntry`, `formatLogEntryList`, `releaseNamePattern`, and `formatChangeLog` as a method with the source's
  loop over the topics. `ReadChangeLogs` runs the whole merge over the listed
  fragments.
- `Destination` (`destination.dfy`): the changelog file as a class whose
  content is a `seq<byte>` field, with the two writes of `appendToFileOnTop`.
- `Examples` (`examples.dfy`): the expectations of `src/KochamerTest.kt`,
  derived from the model through general lemmas about lines and fragments.

Behaviour of the code that is easy to misread:

- A non-marker line always yields an entry, even when it is blank. Only
  marker lines whose remainder is blank yield nothing.
- The text left after removing a marker is not trimmed again.
- The section headers are `## Public:` and `## Private:`.
- The first write of `appendToFileOnTop` does not truncate the file (see
  Findings).

## Model

| member | source | states |
|---|---|---|
| Text.Lower | src/Kochamer.kt:128 | case folding of the case-insensitive marker: upper-case ASCII letters map to lower case, all other characters are unchanged |
| Text.RemoveSuffix | src/Kochamer.kt:79 | `removeSuffix`: drops the suffix exactly once when the string ends with it, otherwise returns the string unchanged |
| Text.RemoveSuffixOfAppended | src/Kochamer.kt:79 | removing a suffix that was appended gives back the original string |
| Text.TrimStart | src/Kochamer.kt:79 | the result is a suffix of the input that does not start with whitespace |
| Text.TrimStartDropsWhitespace | src/Kochamer.kt:79 | everything the start trim drops is whitespace |
| Text.TrimEnd | src/Kochamer.kt:79 | the result is a prefix of the input that does not end with whitespace |
| Text.TrimEndDropsWhitespace | src/Kochamer.kt:79 | everything the end trim drops is whitespace |
| Text.Trim | src/Kochamer.kt:79 | `trim` yields a string with no whitespace at either end, and leaves such a string unchanged |
| Text.TrimBlank | src/Kochamer.kt:83 | `trim` yields the empty string exactly when the line is blank (`isNotBlank` is false) |
| Text.TrimPadded | src/Kochamer.kt:79 | trimming a trimmed string followed by blanks gives back the trimmed string |
| Text.TrimEndPadded | src/Kochamer.kt:79 | the end trim removes exactly the blank padding after a trimmed string |
| Markers.FormatTopic | src/Kochamer.kt:28-31 | each section header `formatTopic` renders starts with `## ` and contains its own topic's marker |
| Markers.SkipRun | src/Kochamer.kt:128 | a greedy `X*` over one character class stops at the end of the line or at a non-member |
| Markers.SkipRunPassesMembers | src/Kochamer.kt:128 | every character a greedy run passes over belongs to its class |
| Markers.SkipRunOver | src/Kochamer.kt:128 | a run of members that ends at a non-member or at the end of the line is exactly what the greedy run consumes |
| Markers.PrefixEndOver | src/Kochamer.kt:128 | for stars, spaces, hashes and spaces laid out before the name, the matched prefix `\**\s*#*\s*` ends where the name starts |
| Markers.MatchAt | src/Kochamer.kt:128 | a match of the marker pattern starts at `i` exactly when the key follows the greedy prefix; it ends after `i` and within the line |
| Markers.MatchEnd | src/Kochamer.kt:128 | a match ends after the key and the whole run of `\s` that follows it: everything between is a space and the next character, if any, is not |
| Markers.ContainsFromKey | src/Kochamer.kt:100 | a match starts at or after `i` exactly when the key `<name>:` occurs there, in any case |
| Markers.KeyStartsAPrefixEnd | src/Kochamer.kt:128 | where the key starts, the prefix consumes nothing and a match succeeds |
| Markers.ContainsTopic | src/Kochamer.kt:100 | `containsTopic` holds exactly when the lower-cased line contains `<name>:`, since every prefix part is optional |
| Removal.RemoveFrom | src/Kochamer.kt:130 | the scan behind `remove`: without a match it copies the rest of the line, and with one the result is strictly shorter |
| Removal.RemoveTopic | src/Kochamer.kt:130 | `remove` never lengthens a line, and leaves it unchanged exactly when it contains no marker |
| Removal.RemoveKeepsTextBefore | src/Kochamer.kt:130 | where no match starts in `s[i..m]`, `remove` copies that text unchanged before whatever it makes of the rest |
| Removal.KeyFreeTail | src/Kochamer.kt:130 | text with no key of its own is copied unchanged |
| Removal.RemoveInnerMarker | src/Kochamer.kt:130 | text in which no match starts, one match, then key-free text: `remove` joins the text before the marker to the text after it (`foo # public: bar` becomes `foobar`) |
| Removal.RemoveLeadingMarker | src/Kochamer.kt:130 | a line that is one leading marker match followed by text with no key of its own keeps exactly that text |
| Markers.KeyAtShift | src/Kochamer.kt:128 | the key occurs in the tail of a line where it occurs in the whole line, shifted by the prefix length |
| Removal.RemoveMarkerAt | src/Kochamer.kt:128-130 | a line that starts with stars, spaces, hashes, spaces, the key and spaces, followed by text without a key or leading space, loses exactly that marker |
| Fragment.TaskName | src/Kochamer.kt:74 | the task is the file name without a trailing `.md` in any case, and is the whole name when there is no such suffix |
| Fragment.TaskNameOfMdFile | src/Kochamer.kt:74 | `<base>.md`, `<base>.MD`, ... all belong to the task `<base>` |
| Fragment.StripLine | src/Kochamer.kt:79 | the rewritten line is trimmed, and a trimmed line without the task tag is kept as it is |
| Fragment.Classify | src/Kochamer.kt:79-94 | the stripped line is a public marker iff it contains `public:`, a private marker iff it contains `private:` but not `public:`, and plain otherwise; a plain line keeps its stripped text, and a marker line keeps what `remove` of its own topic's pattern leaves of the stripped line, which is strictly shorter |
| Fragment.ReadChangelogEntry | src/Kochamer.kt:72-98 | the loop's entries are the reference entries of the fragment's lines, and every entry carries the fragment's task |
| Fragment.FoldStep | src/Kochamer.kt:77-96 | one more line read is one more step of the loop body |
| Fragment.FoldIsExpected | src/Kochamer.kt:75-96 | the loop yields the reference entries, and its running topic is the topic governing the last line read (public before any line) |
| Fragment.ExpectedTasks | src/Kochamer.kt:84-93 | every entry of a fragment carries the fragment's task |
| Fragment.GoverningIsNearestMarker | src/Kochamer.kt:80-94 | a line's topic is that of the nearest marker line at or before it |
| Fragment.GoverningDefaultsToPublic | src/Kochamer.kt:75 | before the first marker line, the topic is public |
| Fragment.ExpectedCount | src/Kochamer.kt:83-93 | the number of entries is the number of lines less the marker lines whose remainder is blank; every plain line yields an entry, blank or not |
| Fragment.KindsAppend | src/Kochamer.kt:77-96 | lines are classified one at a time, independently of their neighbours |
| Fragment.GoverningAfterMarker | src/Kochamer.kt:80-91 | after a marker line, the topic no longer depends on the lines before it |
| Fragment.ExpectedAppend | src/Kochamer.kt:75-96 | the lines that follow a marker line yield the same entries whatever lines came before |
| Fragment.ExpectedSplit | src/Kochamer.kt:75-96 | lines split before a marker line yield the entries of the two parts, one after the other |
| Fragment.ExpectedPrefix | src/Kochamer.kt:75-96 | the entries of the first lines do not depend on later lines |
| Fragment.GoverningPrefix | src/Kochamer.kt:75-94 | the topic of a line does not depend on later lines |
| Render.FilterAppend | src/Kochamer.kt:56 | a topic's entries from two lists of entries are those of the first followed by those of the second |
| Render.FilterContents | src/Kochamer.kt:56 | a topic's group holds exactly the entries of that topic, and is empty exactly when there are none |
| Render.FilterPartitions | src/Kochamer.kt:56 | as multisets, the public and the private groups add up to all entries |
| Render.GroupByTopic | src/Kochamer.kt:56 | `groupingBy { it.topic }` has a key exactly for the topics with entries, and each group is the entries of that topic in their original order |
| Render.GroupSnoc | src/Kochamer.kt:56 | adding one entry extends only the group of that entry's topic, at the end |
| Render.FormatLogEntry | src/Kochamer.kt:124 | the rendered line ends with the task tag, and removing the tag leaves the entry's text and the space before the tag |
| Render.Join | src/Kochamer.kt:116 | `joinToString` starts with the first item and ends with the last |
| Render.FormatLogEntryList | src/Kochamer.kt:116 | the list ends with a separator, is a lone separator when empty, and otherwise starts with the first entry's line |
| Render.EntryListSnoc | src/Kochamer.kt:116 | `formatLogEntryList` is one line per entry: the empty list renders as one separator, and each added entry adds its rendering and a separator |
| Render.FormatChangeLog | src/Kochamer.kt:102-114 | the block is the release name, two separators, the public section if there are public entries, then the private section if there are private ones |
| Render.CombineToChangelog | src/Kochamer.kt:105-111 | the nested `combineToChangelog` appends a topic's section, and nothing for a topic without a group |
| Render.SectionsOfAllTopics | src/Kochamer.kt:112 | iterating over `Topic.values()` renders public before private |
| Render.SectionsSnoc | src/Kochamer.kt:112 | rendering one more topic appends that topic's section |
| Render.SectionsStep | src/Kochamer.kt:112 | the sections of the first `i + 1` topics are those of the first `i` topics followed by the section of topic `i` |
| Render.SectionPresence | src/Kochamer.kt:106-110 | a section is rendered exactly for a topic with entries, and it starts with that topic's header |
| Render.TagRoundTrip | src/Kochamer.kt:79 | a trimmed, marker-free text followed by ` [task]` reads back as that text, and `formatLogEntry` renders it back to the same line |
| Render.RenderedEntryReadsBack | src/Kochamer.kt:124 | a rendered entry with trimmed, marker-free text reads back, in its own fragment, as its text |
| Render.ReleaseNamePattern | src/Kochamer.kt:33 | the release name is the build name, ` vom `, then the date |
| Render.FileEntriesAppend | src/Kochamer.kt:72-98 | a fragment split before a marker line yields the entries of the two parts, one after the other |
| Render.ReadChangeLogs | src/Kochamer.kt:52-58 | the merge renders the groups of the entries of all fragments, taken fragment by fragment |
| Render.GroupOfFiles | src/Kochamer.kt:53-56 | each topic's group is the concatenation, fragment by fragment, of that fragment's entries of the topic |
| Destination.PrependedShape | src/Kochamer.kt:132-142 | the file ends up starting with the new block and ending with the whole old content; it is the block followed by the old content exactly when the block is at least as long, and otherwise the old content beyond the block's length sits between the two |
| Destination.OverwriteShape | src/Kochamer.kt:134-137 | writing without truncation keeps the length of the longer content and changes only the bytes written |
| Destination.ShortBlockLeavesResidue | src/Kochamer.kt:134-137 | a one-byte block written over two bytes of old content leaves `[1, 8, 7, 8]` rather than `[1, 7, 8]` |
| Destination.ChangelogFileOnDisk.constructor | src/Kochamer.kt:132 | the file starts with the given content |
| Destination.ChangelogFileOnDisk.ReadAllBytes | src/Kochamer.kt:133 | `Files.readAllBytes` returns the content and changes nothing |
| Destination.ChangelogFileOnDisk.WriteFromStart | src/Kochamer.kt:134-137 | `Files.write(..., WRITE)` overwrites from offset 0 without truncating |
| Destination.ChangelogFileOnDisk.WriteTruncating | src/Kochamer.kt:134-137 | with `TRUNCATE_EXISTING` the file holds exactly the written bytes |
| Destination.ChangelogFileOnDisk.Append | src/Kochamer.kt:138-141 | `Files.write(..., APPEND)` adds the bytes at the end |
| Destination.ChangelogFileOnDisk.AppendToFileOnTop | src/Kochamer.kt:132-142 | as written: the new content is the non-truncating overwrite followed by the whole old content |
| Destination.ChangelogFileOnDisk.PrependTruncating | src/Kochamer.kt:132-142 | with a truncating first write, the file holds exactly the block followed by the old content |
| Examples.NameAndColonIsMarker | src/KochamerTest.kt:10-28 | the topic name in any case followed by a colon is a marker wherever it stands in a line |
| Examples.NameAloneIsNoMarker | src/KochamerTest.kt:17 | the topic name without its colon is not a marker |
| Examples.ContainsTopicPrivate | src/KochamerTest.kt:10-18 | `private:`, `Private:`, `#private:`, `# private:` and `# private: ` contain the private marker; `private` does not |
| Examples.ContainsTopicPublic | src/KochamerTest.kt:20-29 | `public:`, `Public:`, `#public:`, `# public:` and `# public: ` contain the public marker; `public` does not |
| Examples.NoColonNoKey | src/Kochamer.kt:128 | a line without a colon holds no key |
| Examples.NoColonNoMarker | src/Kochamer.kt:100 | a line without a colon contains no marker |
| Examples.StripUntagged | src/Kochamer.kt:79 | a trimmed line not ending with `]` is left unchanged by the tag strip and the trim |
| Examples.PlainLine | src/Kochamer.kt:92-93 | such a line without a colon is plain text, kept as it is |
| Examples.HeadingLine | src/Kochamer.kt:80-91 | `# <name>:`, spaces, then text without a colon switches to the topic and keeps the text; a private heading needs the public key to be absent |
| Examples.PrivateHeadingHasNoPublicKey | src/Kochamer.kt:80-86 | a private heading followed by text without a colon holds no public key, so the public branch is not taken |
| Examples.HeadingAlone | src/Kochamer.kt:80-91 | `# <name>:` alone switches to the topic and leaves a blank remainder |
| Examples.OneLiner | src/Kochamer.kt:80-91 | `# <name>: <text>` switches to the topic and keeps the text, without the space after the colon |
| Examples.OneKind | src/Kochamer.kt:75-94 | a single line yields an entry exactly when it emits, public unless it is a marker line |
| Examples.HeadedSection | src/Kochamer.kt:75-94 | a bare marker line followed by a plain line yields one entry, of the marker's topic |
| Examples.LongSection | src/Kochamer.kt:75-94 | a bare marker line followed by two plain lines yields two entries of the marker's topic, in order |
| Examples.PlainLineFile | src/KochamerTest.kt:31-36 | a fragment of one plain line yields one public entry with the fragment's task |
| Examples.OneLinerFile | src/KochamerTest.kt:38-48 | a fragment of one `# <name>: <text>` line yields one entry of that topic holding the text |
| Examples.SectionFile | src/KochamerTest.kt:50-65 | a heading line followed by a plain line yields one entry of the heading's topic |
| Examples.LongSectionFile | src/KochamerTest.kt:66-83 | a heading line followed by two plain lines yields two entries of that topic |
| Examples.TwoSectionsFile | src/KochamerTest.kt:66-103 | two headed sections of two lines yield the first section's entries, then the second's, each with its heading's topic |
| Examples.SplitBeforeHeading | src/Kochamer.kt:75-96 | a fragment split before a bare heading line yields the entries of both parts in order |
| Examples.TaggedLineFile | src/KochamerTest.kt:105-110 | a plain line that already ends with its task tag yields its text without the tag |
| Examples.InnerMatchAt | src/Kochamer.kt:128 | in `foo # public: bar` no match starts in `foo`, and the match starting at the space before `#` ends where `bar` starts |
| Examples.InnerMarkerRemoved | src/Kochamer.kt:130 | `remove` turns `foo # public: bar` into `foobar` |
| Examples.TaskOfIts001 | src/KochamerTest.kt:33 | the task of `ITS-001.md` is `ITS-001` |
| Examples.DefaultPublic | src/KochamerTest.kt:31-36 | `* I'am default public` yields one public entry of task `ITS-001` |
| Examples.PublicInOneLine | src/KochamerTest.kt:38-42 | `# Public: * I'am a public one liner` yields the public entry `* I'am a public one liner` |
| Examples.PrivateInOneLine | src/KochamerTest.kt:44-48 | `# Private: * I'am a private one liner` yields the private entry `* I'am a private one liner` |
| Examples.PrivateSection | src/KochamerTest.kt:50-56 | `# Private:` then a line yields that line as one private entry |
| Examples.PublicSection | src/KochamerTest.kt:58-64 | `# Public:` then a line yields that line as one public entry |
| Examples.PrivateAndPublicSection | src/KochamerTest.kt:66-83 | a private section then a public section yield two private entries then two public entries, in line order |
| Examples.PublicAndPrivateSection | src/KochamerTest.kt:85-103 | a public section then a private section yield two public entries then two private entries, in line order |
| Examples.AlreadyContainsTask | src/KochamerTest.kt:105-109 | `* I already contained my task [ITS-001]` yields the public entry `* I already contained my task` |

## Left out

- `main`, `listReadmeFiles` (directory listing and the `**.md` glob), `deleteAll`
  and `ChangelogFile(File)`: file-system I/O. `ReadChangeLogs` takes the
  listed fragments, with their names and lines, as a parameter.
- `getReleaseName`: it reads the clock and formats the date for a locale. The
  release name is a parameter; only `releaseNamePattern` is modelled.
- `System.lineSeparator()`: the separator is a parameter (`nl`).
- `String.toByteArray()`: the UTF-8 encoding of the rendered block is not
  modelled. `AppendToFileOnTop` takes the block as bytes.
- Unicode: the source compares case Unicode-aware (`RegexOption.IGNORE_CASE`);
  the model folds ASCII only, so keys spelled with U+0130 or U+0131 (as in
  `# Prıvate:`) are markers in the source and not in the model. `trim` and `isBlank` treat only the ASCII whitespace of
  `Char.isWhitespace` as whitespace: the `\s` characters and U+001C..U+001F.
- Regular expressions: only the marker pattern is modelled, by a matcher
  written for it. The `$` of `\.md$` is modelled as the end of the name. Java's
  `$` also matches before a final line terminator, but the fragments are
  listed through the glob `**.md` (src/Kochamer.kt:61), so every listed name
  ends in `.md` itself.
- Streams and maps: `Stream` laziness and `HashMap` iteration order are left
  out. Grouping is a map from topic to list, and rendering visits the topics
  in declaration order, as the source does.
- Failures of the three file calls of `appendToFileOnTop`: `Files.readAllBytes`
  throws when the changelog file is missing, and the `WRITE`-only open would
  not create it either. `ChangelogFileOnDisk` always exists and has content,
  so these errors are not modelled.
- The atomicity of the two `Files.write` calls, and what an interrupted merge
  leaves behind: only the resulting bytes are modelled.
- `src/KochamerTest.kt` is not modelled as code; the expectations of its tests
  are lemmas in `Examples`.

## Findings

| source | as written | input that shows it | evidently intended | confidence | as-written member | corrected member |
|---|---|---|---|---|---|---|
| src/Kochamer.kt:134-137 | the first `Files.write` opens the file with `WRITE` only, so the new block overwrites the old bytes from offset 0 and the file is not truncated; the old content is then appended in full | a one-byte block `[1]` over the two-byte content `[7, 8]` leaves `[1, 8, 7, 8]` | the file holds the new block followed by the old content, `[1, 7, 8]`; this needs `TRUNCATE_EXISTING` on the first write | not executed | Destination.ChangelogFileOnDisk.AppendToFileOnTop, Destination.ShortBlockLeavesResidue | Destination.ChangelogFileOnDisk.PrependTruncating |
