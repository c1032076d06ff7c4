/** The compressor as an abstract lossless pair, and the size words of stored blocks. */
module Compressor {
  import opened Bytes

  /** `compress` yields the empty sequence when the output would not fit;
      `uncompress` is given the room it may fill. */
  datatype Codec = Codec(compress: seq<byte> -> seq<byte>,
                         uncompress: (seq<byte>, nat) -> Option<seq<byte>>)

  ghost predicate Lossless(c: Codec)
  {
    forall x: seq<byte>, room: nat {:trigger c.uncompress(c.compress(x), room)} ::
      |x| <= room && c.compress(x) != [] ==> c.uncompress(c.compress(x), room) == Some(x)
  }

  /** What mangle2 needs to know: the codec, whether compression is switched
      off, and the saving (in percent) compression must reach. */
  datatype Packer = Packer(codec: Codec, off: bool, threshold: real)

  datatype Stored = Stored(raw: bool, data: seq<byte>)

  /** Compress x, or keep it as it is when compression does not pay. */
  function Mangle(p: Packer, x: seq<byte>): (st: Stored)
    ensures st.raw ==> st.data == x
    ensures !st.raw ==> 0 < |st.data| < |x| && st.data == p.codec.compress(x)
  {
    var y := if p.off then [] else p.codec.compress(x);
    if |y| == 0 || |y| >= |x| || |y| as real > |x| as real * ((100.0 - p.threshold) / 100.0) then
      Stored(true, x)
    else
      Stored(false, y)
  }

  function Unmangle(c: Codec, st: Stored, room: nat): Option<seq<byte>>
  {
    if st.raw then Some(st.data) else c.uncompress(st.data, room)
  }

  lemma MangleRoundTrip(p: Packer, x: seq<byte>, room: nat)
    requires Lossless(p.codec) && |x| <= room
    ensures Unmangle(p.codec, Mangle(p, x), room) == Some(x)
  {
  }

  // Size words. Bit 15 (metadata) or bit 24 (data) marks an uncompressed block.

  const META_BIT: nat := 0x8000
  const DATA_BIT: nat := 0x100_0000

  function MetaWord(st: Stored): nat
  {
    |st.data| + if st.raw then META_BIT else 0
  }

  function MetaWordSize(w: nat): nat
  {
    if w % META_BIT != 0 then w % META_BIT else META_BIT
  }

  predicate MetaWordRaw(w: nat)
  {
    w / META_BIT % 2 == 1
  }

  lemma MetaWordDecodes(st: Stored)
    requires 0 < |st.data| < META_BIT
    ensures MetaWord(st) < 0x1_0000
    ensures MetaWordSize(MetaWord(st)) == |st.data|
    ensures MetaWordRaw(MetaWord(st)) == st.raw
  {
    if st.raw {
      assert MetaWord(st) == |st.data| + META_BIT * 1;
    }
  }

  /** In the 16 bits that are stored, a size from 1 to 32767 comes back with its bit, and no other:
      32768 comes back with the bit turned, and 0 as 32768. */
  lemma MetaWordExact(st: Stored)
    requires |st.data| <= META_BIT
    ensures var w := MetaWord(st) % 0x1_0000;
            && (MetaWordSize(w) == |st.data| && MetaWordRaw(w) == st.raw <==> 0 < |st.data| < META_BIT)
            && (|st.data| == META_BIT ==> MetaWordSize(w) == META_BIT && MetaWordRaw(w) == !st.raw)
            && (|st.data| == 0 ==> MetaWordSize(w) == META_BIT && MetaWordRaw(w) == st.raw)
  {
    if 0 < |st.data| < META_BIT {
      MetaWordDecodes(st);
    }
  }

  function DataWord(st: Stored): nat
  {
    |st.data| + if st.raw then DATA_BIT else 0
  }

  function DataWordSize(w: nat): nat
  {
    w % DATA_BIT + w / (2 * DATA_BIT) * (2 * DATA_BIT)
  }

  predicate DataWordRaw(w: nat)
  {
    w / DATA_BIT % 2 == 1
  }

  lemma DataWordDecodes(st: Stored)
    requires |st.data| < DATA_BIT
    ensures DataWordSize(DataWord(st)) == |st.data|
    ensures DataWordRaw(DataWord(st)) == st.raw
    ensures DataWord(st) == 0 <==> !st.raw && st.data == []
    ensures DataWord(st) < 0x1_0000_0000
  {
    if st.raw {
      assert DataWord(st) == |st.data| + DATA_BIT * 1;
    }
  }
}
