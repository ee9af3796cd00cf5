/** The destination changelog file and `appendToFileOnTop`, which puts the
    rendered block in front of the file's content with two writes. */
module Destination {

  newtype byte = b: int | 0 <= b < 256

  /** The content after writing `data` from offset 0 without truncating
      (`StandardOpenOption.WRITE` alone): the written bytes, then whatever
      of the old content lay beyond them. */
  function Overwrite(content: seq<byte>, data: seq<byte>): seq<byte> {
    data + if |data| < |content| then content[|data|..] else []
  }

  /** The content `appendToFileOnTop` leaves: the overwrite, then the old
      content appended. */
  function PrependedAsWritten(block: seq<byte>, content: seq<byte>): seq<byte> {
    Overwrite(content, block) + content
  }

  /** Writing without truncation keeps the length of the longer of the two
      and changes only the bytes written. */
  lemma OverwriteShape(content: seq<byte>, data: seq<byte>)
    ensures |Overwrite(content, data)| == if |data| < |content| then |content| else |data|
    ensures Overwrite(content, data)[..|data|] == data
    ensures forall k :: |data| <= k < |content| ==> Overwrite(content, data)[k] == content[k]
  {
  }

  /** The result starts with the new block and ends with the whole old
      content; it is exactly the block followed by the old content when the
      block is at least as long as the old content, and otherwise the tail
      `content[|block|..]` of the old content sits between them. */
  lemma PrependedShape(block: seq<byte>, content: seq<byte>)
    ensures var r := PrependedAsWritten(block, content);
      && |r| >= |block| + |content|
      && r[..|block|] == block
      && r[|r| - |content|..] == content
      && (r == block + content <==> |block| >= |content|)
      && (|block| < |content| ==> r == block + content[|block|..] + content)
  {
    var r := PrependedAsWritten(block, content);
    assert r[|r| - |content|..] == content;
    if |block| < |content| {
      assert |r| == 2 * |content|;
      assert r != block + content;
    } else {
      assert r == block + [] + content;
    }
  }

  /** A one-byte block in front of two bytes of old content: the old second
      byte survives between the block and the appended old content. */
  lemma ShortBlockLeavesResidue()
    ensures PrependedAsWritten([1], [7, 8]) == [1, 8, 7, 8]
    ensures PrependedAsWritten([1], [7, 8]) != [1] + [7, 8]
  {
    assert [7, 8][1..] == [8 as byte];
  }

  /** The destination file. */
  class ChangelogFileOnDisk {
    var content: seq<byte>

    constructor (initial: seq<byte>)
      ensures content == initial
    {
      content := initial;
    }

    /** `Files.readAllBytes`. */
    method ReadAllBytes() returns (bytes: seq<byte>)
      ensures bytes == content
    {
      bytes := content;
    }

    /** `Files.write(path, data, WRITE)`. */
    method WriteFromStart(data: seq<byte>)
      modifies this
      ensures content == Overwrite(old(content), data)
      ensures data == content[..|data|]
    {
      content := data + if |data| < |content| then content[|data|..] else [];
    }

    /** `Files.write(path, data, TRUNCATE_EXISTING, WRITE)`. */
    method WriteTruncating(data: seq<byte>)
      modifies this
      ensures content == data
    {
      content := data;
    }

    /** `Files.write(path, data, APPEND)`. */
    method Append(data: seq<byte>)
      modifies this
      ensures content == old(content) + data
    {
      content := content + data;
    }

    /** `appendToFileOnTop` as written, with the rendered block already
        encoded: read the file, write the block from offset 0, append the
        old content. */
    method AppendToFileOnTop(block: seq<byte>)
      modifies this
      ensures content == PrependedAsWritten(block, old(content))
      ensures content[..|block|] == block && content[|content| - |old(content)|..] == old(content)
    {
      var fileContent := ReadAllBytes();
      WriteFromStart(block);
      Append(fileContent);
      PrependedShape(block, fileContent);
    }

    /** The prepend the merger intends: with the first write truncating,
        the file holds exactly the block followed by the old content. */
    method PrependTruncating(block: seq<byte>)
      modifies this
      ensures content == block + old(content)
    {
      var fileContent := ReadAllBytes();
      WriteTruncating(block);
      Append(fileContent);
    }
  }
}
