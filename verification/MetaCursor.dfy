/** Reading a metadata table through a cursor (block position, offset), block by block,
    as the kernel readers do, against the flat stream the table stands for. */
module MetaCursor {
  import opened Bytes
  import opened Compressor
  import opened Metadata

  /** squashfs_get_cached_block / squashfs_read_metadata: `len` bytes from the cursor,
      and the cursor behind them. */
  function ReadMeta(c: Codec, image: seq<byte>, cur: Ref, len: nat): Option<(seq<byte>, Ref)>
    decreases |image| - cur.block
  {
    if len == 0 then Some(([], cur)) else
    match ReadBlock(c, image, cur.block, 0)
    case None => None
    case Some((x, next)) =>
      if cur.offset >= |x| then None else
      var avail := |x| - cur.offset;
      if len < avail then Some((x[cur.offset..cur.offset + len], Ref(cur.block, cur.offset + len)))
      else if len == avail then Some((x[cur.offset..], Ref(next, 0)))
      else match ReadMeta(c, image, Ref(next, 0), len - avail)
           case None => None
           case Some((rest, end)) => Some((x[cur.offset..] + rest, end))
  }

  /** The same as a loop with a moving cursor. */
  method ReadMetadata(c: Codec, image: seq<byte>, start: Ref, len: nat) returns (r: Option<(seq<byte>, Ref)>)
    ensures r == ReadMeta(c, image, start, len)
  {
    hide ReadBlock;
    var cur, left, buffer := start, len, [];
    ghost var all := ReadMeta(c, image, start, len);
    assert all.Some? ==> buffer + all.value.0 == all.value.0;
    while left > 0
      invariant 0 <= left
      invariant match ReadMeta(c, image, cur, left)
                case None => all == None
                case Some((rest, end)) => all == Some((buffer + rest, end))
      decreases left
    {
      var block := ReadBlock(c, image, cur.block, 0);
      if block.None? {
        return None;
      }
      var (x, next) := block.value;
      if cur.offset >= |x| {
        return None;
      }
      var bytes := if left < |x| - cur.offset then left else |x| - cur.offset;
      ghost var sofar, piece := buffer, x[cur.offset..cur.offset + bytes];
      assert cur.offset + bytes == |x| ==> piece == x[cur.offset..];
      buffer := buffer + x[cur.offset..cur.offset + bytes];
      left := left - bytes;
      cur := if cur.offset + bytes == |x| then Ref(next, 0) else Ref(cur.block, cur.offset + bytes);
      ghost var rest := ReadMeta(c, image, cur, left);
      assert rest.Some? ==> buffer + rest.value.0 == sofar + (piece + rest.value.0);
      assert left == 0 ==> piece + [] == piece;
    }
    assert buffer + [] == buffer;
    r := Some((buffer, cur));
  }

  /** The cursor that stands at stream position q of a table lying at `base`. */
  function CursorAt(p: Packer, blocks: seq<seq<byte>>, base: nat, q: nat): Ref
    requires q / BLOCK <= |blocks|
  {
    if q == |Flatten(blocks)| then Ref(base + |EncodeBlocks(p, blocks)|, 0)
    else Ref(base + Position(p, blocks, q / BLOCK), q % BLOCK)
  }

  lemma {:induction false} FlattenAt(blocks: seq<seq<byte>>, k: nat)
    requires WellCut(blocks) && k < |blocks|
    ensures Holds(Flatten(blocks), BLOCK * k, blocks[k])
    ensures k + 1 < |blocks| ==> BLOCK * (k + 1) < |Flatten(blocks)|
    ensures k + 1 == |blocks| ==> BLOCK * k + |blocks[k]| == |Flatten(blocks)|
    decreases |blocks|
  {
    var n := |blocks| - 1;
    FlattenFull(blocks[..n]);
    if k < n {
      FlattenAt(blocks[..n], k);
      HoldsGrow(Flatten(blocks[..n]), blocks[n], BLOCK * k, blocks[k]);
    }
  }

  lemma {:induction false} InStream(blocks: seq<seq<byte>>, q: nat)
    requires WellCut(blocks) && q <= |Flatten(blocks)|
    ensures q / BLOCK <= |blocks|
    ensures q < |Flatten(blocks)| ==> q / BLOCK < |blocks| && q % BLOCK < |blocks[q / BLOCK]|
  {
    var n := |blocks|;
    if n > 0 {
      FlattenAt(blocks, n - 1);
      if q < |Flatten(blocks)| {
        FlattenAt(blocks, q / BLOCK);
      }
    }
  }

  /** Reading from the cursor of position q yields the stream's bytes there and the
      cursor of the position behind them, however many blocks the read crosses. */
  lemma {:induction false} ReadMetaBack(p: Packer, blocks: seq<seq<byte>>, image: seq<byte>, base: nat, q: nat,
                                        len: nat)
    requires Lossless(p.codec) && WellCut(blocks) && Holds(image, base, EncodeBlocks(p, blocks))
    requires q + len <= |Flatten(blocks)| && len > 0 && q / BLOCK <= |blocks| && (q + len) / BLOCK <= |blocks|
    ensures ReadMeta(p.codec, image, CursorAt(p, blocks, base, q), len)
         == Some((Flatten(blocks)[q..q + len], CursorAt(p, blocks, base, q + len)))
    decreases len
  {
    hide EncodeBlock, EncodeBlocks, ReadBlock, Flatten;
    var k, o, s := q / BLOCK, q % BLOCK, Flatten(blocks);
    InStream(blocks, q);
    var x := blocks[k];
    BlockInTable(p, blocks, k);
    HoldsTrans(image, base, EncodeBlocks(p, blocks), Position(p, blocks, k), EncodeBlock(p, x));
    ReadBlockBack(p, x, image, base + Position(p, blocks, k), 0);
    PositionNext(p, blocks, k);
    FlattenAt(blocks, k);
    var avail := |x| - o;
    var m := if len < avail then len else avail;
    HoldsSlice(s, BLOCK * k, x, o, m);
    if len >= avail {
      NextBlock(p, blocks, base, k);
      if len > avail {
        InStream(blocks, q + avail);
        ReadMetaBack(p, blocks, image, base, q + avail, len - avail);
        assert s[q..q + len] == s[q..q + avail] + s[q + avail..q + len];
      }
    }
  }

  /** The cursor behind a whole block is the next block's position, offset zero. */
  lemma NextBlock(p: Packer, blocks: seq<seq<byte>>, base: nat, k: nat)
    requires WellCut(blocks) && k < |blocks|
    ensures (BLOCK * k + |blocks[k]|) / BLOCK <= |blocks|
    ensures CursorAt(p, blocks, base, BLOCK * k + |blocks[k]|) == Ref(base + Position(p, blocks, k + 1), 0)
  {
    hide EncodeBlock, EncodeBlocks, Flatten;
    FlattenAt(blocks, k);
    assert blocks[..|blocks|] == blocks;
  }

  /** A reference that names a stream position is a cursor that stands there. */
  lemma ReadNamed(p: Packer, blocks: seq<seq<byte>>, image: seq<byte>, base: nat, r: Ref, q: nat, len: nat)
    requires Lossless(p.codec) && WellCut(blocks) && Holds(image, base, EncodeBlocks(p, blocks))
    requires Names(p, blocks, r, q) && q + len <= |Flatten(blocks)| && len > 0
    ensures (q + len) / BLOCK <= |blocks|
    ensures ReadMeta(p.codec, image, Ref(base + r.block, r.offset), len)
         == Some((Flatten(blocks)[q..q + len], CursorAt(p, blocks, base, q + len)))
  {
    hide EncodeBlocks, Flatten, ReadMeta, Lossless, WellCut;
    InStream(blocks, q + len);
    ReadMetaBack(p, blocks, image, base, q, len);
  }
}
