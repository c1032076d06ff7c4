/** Tables that are read through a list of block positions: the id, fragment, lookup
    and xattr id tables, all written by generic_write_table. */
module Tables {
  import opened Bytes
  import opened Compressor
  import opened Metadata

  function PutLongs(list: seq<nat>): (s: seq<byte>)
    ensures |s| == 8 * |list|
  {
    if list == [] then [] else PutLongs(list[..|list| - 1]) + PutLe(list[|list| - 1], 8)
  }

  lemma {:induction false} LongAt(list: seq<nat>, i: nat)
    requires i < |list|
    ensures PutLongs(list)[8 * i..8 * i + 8] == PutLe(list[i], 8)
    decreases |list|
  {
    hide PutLe;
    var n := |list| - 1;
    var front, last := PutLongs(list[..n]), PutLe(list[n], 8);
    if i < n {
      LongAt(list[..n], i);
      assert (front + last)[8 * i..8 * i + 8] == front[8 * i..8 * i + 8];
    } else {
      assert (front + last)[8 * n..8 * n + 8] == last;
    }
  }

  /** The positions of the first n blocks of a table that begins at `base`. */
  function Starts(p: Packer, blocks: seq<seq<byte>>, base: nat, n: nat): (list: seq<nat>)
    requires n <= |blocks|
    ensures |list| == n
    ensures forall i :: 0 <= i < n ==> list[i] == base + Position(p, blocks, i)
  {
    if n == 0 then [] else Starts(p, blocks, base, n - 1) + [base + Position(p, blocks, n - 1)]
  }

  /** What generic_write_table puts after `image`: the blocks, an optional header
      and the list of block positions. */
  function TableBytes(p: Packer, base: nat, data: seq<byte>, header: seq<byte>): seq<byte>
  {
    var blocks := Chop(data);
    EncodeBlocks(p, blocks) + header + PutLongs(Starts(p, blocks, base, |blocks|))
  }

  /** Where its header stands: what generic_write_table returns. */
  function TableStart(p: Packer, base: nat, data: seq<byte>): nat
  {
    base + |EncodeBlocks(p, Chop(data))|
  }

  function Ceil(n: nat): nat
  {
    (n + BLOCK - 1) / BLOCK
  }

  lemma {:induction false} ChopCount(s: seq<byte>)
    ensures |Chop(s)| == Ceil(|s|)
    ensures forall i :: 0 <= i < |Chop(s)| - 1 ==> |Chop(s)[i]| == BLOCK
    ensures s != [] ==> |Chop(s)[|Chop(s)| - 1]| == |s| - BLOCK * (Ceil(|s|) - 1)
    decreases |s|
  {
    if |s| > BLOCK {
      ChopCount(s[BLOCK..]);
      assert Ceil(|s|) == 1 + Ceil(|s| - BLOCK);
    }
  }

  /** Block i of the cut is the i-th slice of the data. */
  lemma {:induction false} ChopAt(s: seq<byte>, i: nat)
    requires i < |Chop(s)|
    ensures BLOCK * i < |s|
    ensures var length := |s| - BLOCK * i;
            Chop(s)[i] == s[BLOCK * i..BLOCK * i + if length > BLOCK then BLOCK else length]
  {
    if i > 0 {
      var t := s[BLOCK..];
      ChopAt(t, i - 1);
      var a, n := BLOCK * (i - 1), |Chop(s)[i]|;
      assert Chop(s)[i] == Chop(t)[i - 1] == t[a..a + n];
      assert t[a..a + n] == s[BLOCK + a..BLOCK + a + n];
    }
  }

  lemma EncodeNone(p: Packer, blocks: seq<seq<byte>>)
    requires blocks == []
    ensures EncodeBlocks(p, blocks) == []
  {
  }

  method GenericWriteTable(p: Packer, image0: seq<byte>, data: seq<byte>, header: seq<byte>)
    returns (image: seq<byte>, start: nat)
    ensures image == image0 + TableBytes(p, |image0|, data, header)
    ensures start == TableStart(p, |image0|, data)
  {
    hide EncodeBlock, EncodeBlocks, PutLongs, Starts, Chop;
    ghost var blocks := Chop(data);
    image := image0;
    var list: seq<nat> := [];
    var count := (|data| + BLOCK - 1) / BLOCK;
    ChopCount(data);
    EncodeNone(p, blocks[..0]);
    for i := 0 to count
      invariant image == image0 + EncodeBlocks(p, blocks[..i])
      invariant |list| == i && forall j :: 0 <= j < i ==> list[j] == |image0| + Position(p, blocks, j)
    {
      ChopAt(data, i);
      var length := |data| - i * BLOCK;
      var avail := if length > BLOCK then BLOCK else length;
      PositionNext(p, blocks, i);
      list := list + [|image|];
      image := image + EncodeBlock(p, data[i * BLOCK..i * BLOCK + avail]);
    }
    assert blocks[..count] == blocks;
    assert list == Starts(p, blocks, |image0|, count);
    start := |image|;
    image := image + header;
    image := image + PutLongs(list);
    assert image == image0 + (EncodeBlocks(p, blocks) + header + PutLongs(list));
  }

  /** How many bytes block i of n must hold: the last block's size is taken modulo
      the block size, so zero (no check) stands for a full last block. */
  function Expected(length: nat, i: nat): nat
  {
    if i + 1 != Ceil(length) then BLOCK else length % BLOCK
  }

  /** The bytes of the first n blocks found through the position list at `start`. */
  function ReadFirst(c: Codec, image: seq<byte>, start: nat, length: nat, n: nat): Option<seq<byte>>
    requires start + 8 * n <= |image|
    decreases n
  {
    if n == 0 then Some([]) else
    match ReadFirst(c, image, start, length, n - 1)
    case None => None
    case Some(front) =>
      match ReadBlock(c, image, GetLe(image[start + 8 * (n - 1)..start + 8 * n]), Expected(length, n - 1))
      case None => None
      case Some((x, next)) => Some(front + x)
  }

  /** The table of `length` bytes whose position list stands at `start`. */
  function ReadIndexed(c: Codec, image: seq<byte>, start: nat, length: nat): Option<seq<byte>>
  {
    if start + 8 * Ceil(length) > |image| then None else ReadFirst(c, image, start, length, Ceil(length))
  }

  /** read_id_table, read_fragment_table, read_inode_lookup_table. */
  method ReadIndexedTable(c: Codec, image: seq<byte>, start: nat, length: nat) returns (r: Option<seq<byte>>)
    ensures r == ReadIndexed(c, image, start, length)
  {
    hide ReadBlock;
    var indexes := (length + BLOCK - 1) / BLOCK;
    if start + 8 * indexes > |image| {
      return None;
    }
    var bytes := [];
    for i := 0 to indexes
      invariant ReadFirst(c, image, start, length, i) == Some(bytes)
    {
      var expected := if i + 1 != indexes then BLOCK else length % BLOCK;
      var block := ReadBlock(c, image, GetLe(image[start + 8 * i..start + 8 * (i + 1)]), expected);
      if block.None? {
        ReadFirstFails(c, image, start, length, i + 1, indexes);
        return None;
      }
      bytes := bytes + block.value.0;
    }
    r := Some(bytes);
  }

  lemma {:induction false} ReadFirstFails(c: Codec, image: seq<byte>, start: nat, length: nat, i: nat, n: nat)
    requires i <= n && start + 8 * n <= |image|
    requires ReadFirst(c, image, start, length, i).None?
    ensures ReadFirst(c, image, start, length, n).None?
    decreases n
  {
    if i < n {
      ReadFirstFails(c, image, start, length, i, n - 1);
    }
  }

  /** Entry i of the position list leads to block i. */
  lemma EntryReads(p: Packer, data: seq<byte>, image: seq<byte>, base: nat, start: nat, i: nat)
    requires Lossless(p.codec) && i < |Chop(data)|
    requires Holds(image, base, EncodeBlocks(p, Chop(data)))
    requires Holds(image, start, PutLongs(Starts(p, Chop(data), base, |Chop(data)|)))
    requires base + |EncodeBlocks(p, Chop(data))| < Span(8)
    ensures start + 8 * (i + 1) <= |image|
    ensures var r := ReadBlock(p.codec, image, GetLe(image[start + 8 * i..start + 8 * (i + 1)]), Expected(|data|, i));
            r.Some? && r.value.0 == Chop(data)[i]
  {
    hide EncodeBlock, EncodeBlocks, PutLongs, ReadBlock, Starts, PutLe, GetLe, Chop, Lossless, Span;
    var blocks := Chop(data);
    var list := Starts(p, blocks, base, |blocks|);
    LongAt(list, i);
    HoldsSlice(image, start, PutLongs(list), 8 * i, 8);
    PositionsIncrease(p, blocks, i, |blocks|);
    TakeAll(blocks);
    LeRoundTrip(list[i], 8);
    BlockInTable(p, blocks, i);
    HoldsTrans(image, base, EncodeBlocks(p, blocks), Position(p, blocks, i), EncodeBlock(p, blocks[i]));
    ChopCount(data);
    LastExpected(|data|);
    ReadBlockBack(p, blocks[i], image, base + Position(p, blocks, i), Expected(|data|, i));
  }

  lemma {:induction false} ReadFirstBack(p: Packer, data: seq<byte>, image: seq<byte>, base: nat, start: nat, n: nat)
    requires Lossless(p.codec) && n <= |Chop(data)|
    requires Holds(image, base, EncodeBlocks(p, Chop(data)))
    requires Holds(image, start, PutLongs(Starts(p, Chop(data), base, |Chop(data)|)))
    requires base + |EncodeBlocks(p, Chop(data))| < Span(8)
    ensures start + 8 * n <= |image| && ReadFirst(p.codec, image, start, |data|, n) == Some(Flatten(Chop(data)[..n]))
    decreases n
  {
    hide EncodeBlocks, PutLongs, ReadBlock, Starts, GetLe, Chop, Lossless, Span, Expected, Holds;
    if n > 0 {
      ReadFirstBack(p, data, image, base, start, n - 1);
      EntryReads(p, data, image, base, start, n - 1);
      TakeTake(Chop(data), n - 1, n);
    } else {
      HoldsInside(image, start, PutLongs(Starts(p, Chop(data), base, |Chop(data)|)));
    }
  }

  lemma HoldsInside(whole: seq<byte>, p: nat, part: seq<byte>)
    requires Holds(whole, p, part)
    ensures p + |part| <= |whole|
  {
  }

  /** The masked length is either the exact size of the last block or zero. */
  lemma LastExpected(length: nat)
    requires length > 0
    ensures var last := length - BLOCK * (Ceil(length) - 1);
            0 < last <= BLOCK && (length % BLOCK == 0 || length % BLOCK == last)
  {
  }

  /** Every table written by generic_write_table reads back intact, for every length
      (zero and exact multiples of the block size included), whatever follows it. */
  lemma TableRoundTrip(p: Packer, before: seq<byte>, data: seq<byte>, header: seq<byte>, after: seq<byte>)
    requires Lossless(p.codec) && |before| + |EncodeBlocks(p, Chop(data))| < Span(8)
    ensures var image := before + TableBytes(p, |before|, data, header) + after;
            var start := |before| + |EncodeBlocks(p, Chop(data))| + |header|;
            start + 8 * Ceil(|data|) <= |image|
            && ReadFirst(p.codec, image, start, |data|, Ceil(|data|)) == Some(data)
  {
    hide EncodeBlock, EncodeBlocks, PutLongs, Chop, ReadFirst, Starts;
    var blocks := Chop(data);
    var enc, list := EncodeBlocks(p, blocks), PutLongs(Starts(p, blocks, |before|, |blocks|));
    var image := before + TableBytes(p, |before|, data, header) + after;
    assert image == before + enc + (header + list + after) == (before + enc + header) + list + after;
    assert image[0..|image|] == image;
    HoldsPart(image, 0, before, enc, header + list + after);
    HoldsPart(image, 0, before + enc + header, list, after);
    ChopCount(data);
    ReadFirstBack(p, data, image, |before|, |before + enc + header|, |blocks|);
    assert blocks[..|blocks|] == blocks;
    ChopFlatten(data);
  }

  // ---------- how much room a table takes ----------

  lemma EncodeRoomOne(p: Packer, x: seq<byte>)
    ensures |EncodeBlock(p, x)| <= |x| + 2
  {
  }

  /** Compression never makes a block longer than itself and its size word. */
  lemma {:induction false} EncodeRoom(p: Packer, blocks: seq<seq<byte>>)
    requires forall i :: 0 <= i < |blocks| ==> 0 < |blocks[i]|
    ensures |EncodeBlocks(p, blocks)| <= 3 * |Flatten(blocks)| && |blocks| <= |Flatten(blocks)|
    decreases |blocks|
  {
    hide EncodeBlock;
    if blocks != [] {
      var n := |blocks| - 1;
      EncodeRoom(p, blocks[..n]);
      EncodeRoomOne(p, blocks[n]);
    }
  }

  lemma TableRoom(p: Packer, base: nat, data: seq<byte>, header: seq<byte>)
    ensures |TableBytes(p, base, data, header)| <= 11 * |data| + |header|
    ensures TableStart(p, base, data) <= base + |TableBytes(p, base, data, header)|
  {
    hide EncodeBlocks, PutLongs, Starts, Chop;
    var blocks := Chop(data);
    ChopFlatten(data);
    EncodeRoom(p, blocks);
  }

  // ---------- tables of records of one size ----------

  ghost predicate Wide(rows: seq<seq<byte>>, width: nat)
  {
    forall i :: 0 <= i < |rows| ==> |rows[i]| == width
  }

  /** Record i of the table. */
  function RowAt(s: seq<byte>, width: nat, i: nat): (row: seq<byte>)
    requires width * (i + 1) <= |s|
    ensures |row| == width
  {
    s[width * i..width * (i + 1)]
  }

  lemma {:induction false} RowsSize(rows: seq<seq<byte>>, width: nat)
    requires Wide(rows, width)
    ensures |Flatten(rows)| == width * |rows|
    decreases |rows|
  {
    if rows != [] {
      RowsSize(rows[..|rows| - 1], width);
    }
  }

  lemma {:induction false} RowBack(rows: seq<seq<byte>>, width: nat, i: nat)
    requires Wide(rows, width) && i < |rows|
    ensures width * (i + 1) <= |Flatten(rows)| && RowAt(Flatten(rows), width, i) == rows[i]
    decreases |rows|
  {
    var n := |rows| - 1;
    var front := Flatten(rows[..n]);
    RowsSize(rows, width);
    RowsSize(rows[..n], width);
    if i < n {
      RowBack(rows[..n], width, i);
      assert width * (i + 1) <= width * n;
      assert Flatten(rows)[width * i..width * (i + 1)] == front[width * i..width * (i + 1)];
    } else {
      assert Flatten(rows)[width * n..width * (n + 1)] == rows[n];
    }
  }

  /** The table that begins at `base`, in an image that holds it anywhere. */
  lemma TableReads(p: Packer, image: seq<byte>, base: nat, data: seq<byte>, header: seq<byte>)
    requires Lossless(p.codec) && Holds(image, base, TableBytes(p, base, data, header)) && |image| < Span(8)
    ensures ReadIndexed(p.codec, image, TableStart(p, base, data) + |header|, |data|) == Some(data)
  {
    hide EncodeBlocks, PutLongs, Chop, ReadFirst, Starts, Lossless;
    var table := TableBytes(p, base, data, header);
    var before, after := image[..base], image[base + |table|..];
    assert image == before + table + after;
    TableRoundTrip(p, before, data, header, after);
  }
}
