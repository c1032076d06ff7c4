/** Metadata streams: inodes, directories and xattrs are appended to a cache that
    is cut into 8 KiB blocks, compressed and concatenated. A reference names the
    compressed position of a block and an offset in it, and is handed out before
    that block is compressed. The reader rebuilds the flat stream and finds each
    block through a hash table keyed by its compressed position. */
module Metadata {
  import opened Bytes
  import opened Compressor

  const BLOCK: nat := 8192

  // ---------- references ----------

  datatype Ref = Ref(block: nat, offset: nat)

  /** MKINODE: block position above, offset in the low 16 bits. */
  function MkInode(r: Ref): nat
  {
    r.block * 0x1_0000 + r.offset
  }

  function InodeRef(a: nat): Ref
  {
    Ref(a / 0x1_0000 % 0x1_0000_0000, a % 0x1_0000)
  }

  lemma InodePacking(r: Ref)
    requires r.block < 0x1_0000_0000 && r.offset < 0x1_0000
    ensures InodeRef(MkInode(r)) == r
  {
  }

  // ---------- the encoded table ----------

  function EncodeBlock(p: Packer, x: seq<byte>): (s: seq<byte>)
    ensures |s| >= 2
  {
    PutLe(MetaWord(Mangle(p, x)), 2) + Mangle(p, x).data
  }

  function EncodeBlocks(p: Packer, blocks: seq<seq<byte>>): seq<byte>
  {
    if blocks == [] then [] else
      EncodeBlocks(p, blocks[..|blocks| - 1]) + EncodeBlock(p, blocks[|blocks| - 1])
  }

  /** Where block k begins in the encoded table. */
  function Position(p: Packer, blocks: seq<seq<byte>>, k: nat): nat
    requires k <= |blocks|
  {
    |EncodeBlocks(p, blocks[..k])|
  }

  ghost predicate Full(blocks: seq<seq<byte>>)
  {
    forall i :: 0 <= i < |blocks| ==> |blocks[i]| == BLOCK
  }

  /** Every block is full, except that the last one may be shorter (not empty). */
  ghost predicate WellCut(blocks: seq<seq<byte>>)
  {
    && (forall i :: 0 <= i < |blocks| ==> 0 < |blocks[i]| <= BLOCK)
    && (forall i :: 0 <= i < |blocks| - 1 ==> |blocks[i]| == BLOCK)
  }

  lemma {:induction false} PositionNext(p: Packer, blocks: seq<seq<byte>>, k: nat)
    requires k < |blocks|
    ensures EncodeBlocks(p, blocks[..k + 1]) == EncodeBlocks(p, blocks[..k]) + EncodeBlock(p, blocks[k])
    ensures Position(p, blocks, k + 1) == Position(p, blocks, k) + |EncodeBlock(p, blocks[k])|
  {
    assert blocks[..k + 1][..k] == blocks[..k];
  }

  lemma {:induction false} PositionsIncrease(p: Packer, blocks: seq<seq<byte>>, j: nat, k: nat)
    requires j < k <= |blocks|
    ensures Position(p, blocks, j) < Position(p, blocks, k)
    decreases k
  {
    PositionNext(p, blocks, k - 1);
    if j < k - 1 {
      PositionsIncrease(p, blocks, j, k - 1);
    }
  }

  /** The bytes of block k stand at its position in the encoded table. */
  lemma {:induction false} BlockInTable(p: Packer, blocks: seq<seq<byte>>, k: nat)
    requires k < |blocks|
    ensures Holds(EncodeBlocks(p, blocks), Position(p, blocks, k), EncodeBlock(p, blocks[k]))
    decreases |blocks|
  {
    var n := |blocks| - 1;
    var front := blocks[..n];
    if k == n {
    } else {
      BlockInTable(p, front, k);
      assert front[..k] == blocks[..k];
      HoldsGrow(EncodeBlocks(p, front), EncodeBlock(p, blocks[n]), Position(p, blocks, k), EncodeBlock(p, blocks[k]));
    }
  }

  lemma {:induction false} FlattenFull(blocks: seq<seq<byte>>)
    requires Full(blocks)
    ensures |Flatten(blocks)| == BLOCK * |blocks|
    decreases |blocks|
  {
    if blocks != [] {
      FlattenFull(blocks[..|blocks| - 1]);
    }
  }

  // ---------- the writer ----------

  /** The uncompressed blocks flushed so far and the bytes still cached. */
  datatype Meta = Meta(blocks: seq<seq<byte>>, cache: seq<byte>)

  function Stream(m: Meta): seq<byte>
  {
    Flatten(m.blocks) + m.cache
  }

  /** Move every full block out of the cache. */
  function Flush(m: Meta): (f: Meta)
    ensures |f.cache| < BLOCK
    ensures Full(m.blocks) ==> Full(f.blocks)
    ensures m.blocks <= f.blocks
    decreases |m.cache|
  {
    if |m.cache| < BLOCK then m else Flush(Meta(m.blocks + [m.cache[..BLOCK]], m.cache[BLOCK..]))
  }

  function Put(m: Meta, data: seq<byte>): Meta
  {
    Flush(m).(cache := Flush(m).cache + data)
  }

  /** The reference handed out for the next item stored in m. */
  function RefOf(p: Packer, m: Meta): Ref
  {
    Ref(|EncodeBlocks(p, Flush(m).blocks)|, |Flush(m).cache|)
  }

  function Chop(s: seq<byte>): (blocks: seq<seq<byte>>)
    ensures WellCut(blocks)
    ensures s != [] ==> blocks != []
    decreases |s|
  {
    if s == [] then [] else if |s| <= BLOCK then [s] else [s[..BLOCK]] + Chop(s[BLOCK..])
  }

  /** All blocks of the finished table. */
  function Close(m: Meta): seq<seq<byte>>
  {
    m.blocks + Chop(m.cache)
  }

  lemma {:induction false} FlushStream(m: Meta)
    ensures Stream(Flush(m)) == Stream(m)
    decreases |m.cache|
  {
    if |m.cache| >= BLOCK {
      var m' := Meta(m.blocks + [m.cache[..BLOCK]], m.cache[BLOCK..]);
      FlushStream(m');
      assert m'.blocks[..|m.blocks|] == m.blocks;
      assert m.cache == m.cache[..BLOCK] + m.cache[BLOCK..];
    }
  }

  lemma PutStream(m: Meta, data: seq<byte>)
    ensures Stream(Put(m, data)) == Stream(m) + data
  {
    FlushStream(m);
    assert Stream(Put(m, data)) == Flatten(Flush(m).blocks) + Flush(m).cache + data;
  }

  lemma {:induction false} ChopFlatten(s: seq<byte>)
    ensures Flatten(Chop(s)) == s
    decreases |s|
  {
    if s == [] {
    } else if |s| <= BLOCK {
      assert Flatten([s]) == Flatten([]) + s;
      assert [s][..0] == [];
    } else {
      ChopFlatten(s[BLOCK..]);
      FlattenAppend([s[..BLOCK]], Chop(s[BLOCK..]));
      assert [s[..BLOCK]][..0] == [];
      assert Flatten([s[..BLOCK]]) == s[..BLOCK];
      assert s == s[..BLOCK] + s[BLOCK..];
    }
  }

  /** The finished table holds exactly the bytes that were appended, well cut. */
  lemma CloseStream(m: Meta)
    requires Full(m.blocks)
    ensures Flatten(Close(m)) == Stream(m)
    ensures WellCut(Close(m))
    ensures m.blocks <= Close(m)
  {
    FlattenAppend(m.blocks, Chop(m.cache));
    ChopFlatten(m.cache);
  }

  /** A reference pins down a stream position by way of the block list. */
  ghost predicate Names(p: Packer, blocks: seq<seq<byte>>, r: Ref, pos: nat)
  {
    var k := pos / BLOCK;
    k <= |blocks| && r == Ref(Position(p, blocks, k), pos % BLOCK)
  }

  /** A reference is issued against the blocks flushed so far, before its own
      block exists; it stays right for every longer block list. */
  lemma RefNames(p: Packer, m: Meta, longer: seq<seq<byte>>)
    requires Full(m.blocks) && Flush(m).blocks <= longer
    ensures Names(p, longer, RefOf(p, m), |Stream(m)|)
    ensures RefOf(p, m).offset < BLOCK
  {
    var f := Flush(m);
    FlushStream(m);
    FlattenFull(f.blocks);
    assert |Stream(m)| == BLOCK * |f.blocks| + |f.cache|;
    assert |Stream(m)| / BLOCK == |f.blocks|;
    assert longer[..|f.blocks|] == f.blocks;
  }

  // ---------- the reader ----------

  /** read_block: the uncompressed bytes at `start` and where the next block begins. */
  function ReadBlock(c: Codec, image: seq<byte>, start: nat, expected: nat): (r: Option<(seq<byte>, nat)>)
    ensures r.Some? ==> start + 2 < r.value.1 <= |image| && r.value.0 != []
  {
    if start + 2 > |image| then None else
    var w := GetLe(image[start..start + 2]);
    var size := MetaWordSize(w);
    var room := if expected != 0 then expected else BLOCK;
    if size > room || start + 2 + size > |image| then None else
    match Unmangle(c, Stored(MetaWordRaw(w), image[start + 2..start + 2 + size]), room)
    case None => None
    case Some(x) =>
      if x == [] || (expected != 0 && |x| != expected) then None else Some((x, start + 2 + size))
  }

  lemma ReadBlockBack(p: Packer, x: seq<byte>, image: seq<byte>, start: nat, expected: nat)
    requires Lossless(p.codec) && 0 < |x| <= BLOCK
    requires expected == 0 || expected == |x|
    requires Holds(image, start, EncodeBlock(p, x))
    ensures ReadBlock(p.codec, image, start, expected) == Some((x, start + |EncodeBlock(p, x)|))
  {
    var st := Mangle(p, x);
    MetaWordDecodes(st);
    Spans();
    LeRoundTrip(MetaWord(st), 2);
    var word := PutLe(MetaWord(st), 2);
    assert EncodeBlock(p, x) == [] + word + st.data == word + st.data + [];
    HoldsPart(image, start, [], word, st.data);
    HoldsPart(image, start, word, st.data, []);
    MangleRoundTrip(p, x, if expected != 0 then expected else BLOCK);
  }

  datatype Located = Located(start: nat, data: seq<byte>)

  /** The blocks of a table lying in image[start..end], with their positions. */
  function ReadBlocks(c: Codec, image: seq<byte>, start: nat, end: nat): Option<seq<Located>>
    decreases end - start
  {
    if start >= end then Some([]) else
    match ReadBlock(c, image, start, 0)
    case None => None
    case Some((x, next)) =>
      if next != end && |x| != BLOCK then None else
      match ReadBlocks(c, image, next, end)
      case None => None
      case Some(rest) => Some([Located(start, x)] + rest)
  }

  function LocatedFrom(p: Packer, blocks: seq<seq<byte>>, base: nat, j: nat): (r: seq<Located>)
    requires j <= |blocks|
    ensures |r| == |blocks| - j
    ensures forall i :: 0 <= i < |r| ==> r[i] == Located(base + Position(p, blocks, j + i), blocks[j + i])
  {
    seq(|blocks| - j, i requires 0 <= i < |blocks| - j => Located(base + Position(p, blocks, j + i), blocks[j + i]))
  }

  lemma LocatedStep(p: Packer, blocks: seq<seq<byte>>, base: nat, j: nat)
    requires j < |blocks|
    ensures LocatedFrom(p, blocks, base, j) ==
            [Located(base + Position(p, blocks, j), blocks[j])] + LocatedFrom(p, blocks, base, j + 1)
  {
    hide LocatedFrom, EncodeBlocks;
    var r, s := LocatedFrom(p, blocks, base, j), LocatedFrom(p, blocks, base, j + 1);
    assert r[0] == Located(base + Position(p, blocks, j + 0), blocks[j + 0]);
    forall i | 1 <= i < |r|
      ensures r[i] == s[i - 1]
    {
      assert r[i] == Located(base + Position(p, blocks, j + i), blocks[j + i]);
      assert s[i - 1] == Located(base + Position(p, blocks, j + 1 + (i - 1)), blocks[j + 1 + (i - 1)]);
    }
  }

  lemma {:induction false} ReadBlocksBack(p: Packer, blocks: seq<seq<byte>>, image: seq<byte>, base: nat, j: nat)
    requires Lossless(p.codec) && WellCut(blocks) && j <= |blocks|
    requires Holds(image, base, EncodeBlocks(p, blocks))
    ensures ReadBlocks(p.codec, image, base + Position(p, blocks, j), base + |EncodeBlocks(p, blocks)|)
         == Some(LocatedFrom(p, blocks, base, j))
    decreases |blocks| - j
  {
    hide EncodeBlock, EncodeBlocks, ReadBlock, LocatedFrom;
    var n := |blocks|;
    assert blocks[..n] == blocks;
    if j < n {
      LocatedStep(p, blocks, base, j);
      PositionsIncrease(p, blocks, j, n);
      BlockInTable(p, blocks, j);
      HoldsTrans(image, base, EncodeBlocks(p, blocks), Position(p, blocks, j), EncodeBlock(p, blocks[j]));
      ReadBlockBack(p, blocks[j], image, base + Position(p, blocks, j), 0);
      PositionNext(p, blocks, j);
      if j + 1 < n {
        PositionsIncrease(p, blocks, j + 1, n);
      }
      ReadBlocksBack(p, blocks, image, base, j + 1);
    }
  }

  // ---------- the hash table from compressed to uncompressed position ----------

  datatype HashEntry = HashEntry(start: nat, bytes: nat)

  /** Chains by bucket; a missing bucket is an empty chain. */
  type HashTable = map<nat, seq<HashEntry>>

  function Bucket(start: nat): nat
  {
    start % 0x1_0000
  }

  function Chain(h: HashTable, b: nat): seq<HashEntry>
  {
    if b in h then h[b] else []
  }

  function AddEntry(h: HashTable, start: nat, bytes: nat): HashTable
  {
    h[Bucket(start) := [HashEntry(start, bytes)] + Chain(h, Bucket(start))]
  }

  function FindInChain(chain: seq<HashEntry>, start: nat): Option<nat>
  {
    if chain == [] then None
    else if chain[0].start == start then Some(chain[0].bytes)
    else FindInChain(chain[1..], start)
  }

  /** lookup_entry, as the loop over one chain. */
  method LookupEntry(h: HashTable, start: nat) returns (r: Option<nat>)
    ensures r == Lookup(h, start)
  {
    var chain := Chain(h, Bucket(start));
    var i := 0;
    assert chain[0..] == chain;
    while i < |chain|
      invariant 0 <= i <= |chain|
      invariant FindInChain(chain[i..], start) == Lookup(h, start)
    {
      if chain[i].start == start {
        return Some(chain[i].bytes);
      }
      assert chain[i..][1..] == chain[i + 1..];
      i := i + 1;
    }
    r := None;
  }

  function Lookup(h: HashTable, start: nat): Option<nat>
  {
    FindInChain(Chain(h, Bucket(start)), start)
  }

  lemma LookupAfterAdd(h: HashTable, start: nat, bytes: nat, other: nat)
    ensures Lookup(AddEntry(h, start, bytes), other) == if other == start then Some(bytes) else Lookup(h, other)
  {
    var chain := Chain(AddEntry(h, start, bytes), Bucket(other));
    if Bucket(other) == Bucket(start) {
      assert chain[1..] == Chain(h, Bucket(other));
    }
  }

  /** The table read back: its flat bytes and the map into them. */
  datatype Table = Table(bytes: seq<byte>, index: HashTable)

  function Collect(found: seq<Located>): Table
  {
    if found == [] then Table([], map[]) else
      var t := Collect(found[..|found| - 1]);
      var last := found[|found| - 1];
      Table(t.bytes + last.data, AddEntry(t.index, last.start, |t.bytes|))
  }

  /** read_inode_table / read_directory_table: one loop that adds a hash entry,
      reads a block and appends it. */
  method ReadTable(c: Codec, image: seq<byte>, start0: nat, end: nat) returns (t: Option<Table>)
    ensures t == (match ReadBlocks(c, image, start0, end)
                  case None => None
                  case Some(found) => Some(Collect(found)))
  {
    hide ReadBlock, AddEntry;
    var start, bytes, index := start0, [], map[];
    ghost var found: seq<Located> := [];
    ghost var all := ReadBlocks(c, image, start0, end);
    assert all.Some? ==> found + all.value == all.value;
    while start < end
      invariant Table(bytes, index) == Collect(found)
      invariant match ReadBlocks(c, image, start, end)
                case None => all.None?
                case Some(rest) => all == Some(found + rest)
      decreases end - start
    {
      index := AddEntry(index, start, |bytes|);
      var r := ReadBlock(c, image, start, 0);
      if r.None? {
        return None;
      }
      var (x, next) := r.value;
      bytes := bytes + x;
      if next != end && |x| != BLOCK {
        return None;
      }
      ghost var found' := found + [Located(start, x)];
      assert found'[..|found|] == found;
      ghost var rest := ReadBlocks(c, image, next, end);
      assert rest.Some? ==> found + ([Located(start, x)] + rest.value) == found' + rest.value;
      found := found';
      start := next;
    }
    assert found + [] == found;
    t := Some(Table(bytes, index));
  }

  lemma {:induction false} CollectBytes(p: Packer, blocks: seq<seq<byte>>, base: nat, n: nat)
    requires n <= |blocks|
    ensures Collect(LocatedFrom(p, blocks, base, 0)[..n]).bytes == Flatten(blocks[..n])
    decreases n
  {
    var l := LocatedFrom(p, blocks, base, 0);
    if n > 0 {
      CollectBytes(p, blocks, base, n - 1);
      assert l[..n][..n - 1] == l[..n - 1];
      assert blocks[..n][..n - 1] == blocks[..n - 1];
    }
  }

  lemma {:induction false} CollectLookup(p: Packer, blocks: seq<seq<byte>>, base: nat, n: nat, k: nat)
    requires WellCut(blocks) && k < n <= |blocks|
    ensures Lookup(Collect(LocatedFrom(p, blocks, base, 0)[..n]).index,
                   base + Position(p, blocks, k)) == Some(BLOCK * k)
    decreases n
  {
    hide EncodeBlock, EncodeBlocks, AddEntry, Lookup, LocatedFrom;
    var l := LocatedFrom(p, blocks, base, 0);
    var t := Collect(l[..n - 1]);
    assert l[n - 1] == Located(base + Position(p, blocks, n - 1), blocks[n - 1]);
    TakeTake(l, n - 1, n);
    LookupAfterAdd(t.index, base + Position(p, blocks, n - 1), |t.bytes|, base + Position(p, blocks, k));
    if k == n - 1 {
      CollectBytes(p, blocks, base, n - 1);
      FlattenFull(blocks[..n - 1]);
    } else {
      PositionsIncrease(p, blocks, k, n - 1);
      CollectLookup(p, blocks, base, n - 1, k);
    }
  }

  /** The stream position a packed reference leads to. */
  function Resolve(t: Table, base: nat, inode: nat): Option<nat>
  {
    var r := InodeRef(inode);
    match Lookup(t.index, base + r.block)
    case None => None
    case Some(k) => Some(k + r.offset)
  }

  /** read_inode_4 and its like: resolve a packed reference and take `len` bytes. */
  function Fetch(t: Table, base: nat, inode: nat, len: nat): Option<seq<byte>>
  {
    match Resolve(t, base, inode)
    case None => None
    case Some(q) => if q + len <= |t.bytes| then Some(t.bytes[q..q + len]) else None
  }

  /** The table a reader collects from well-placed blocks. */
  ghost predicate ReadsAs(p: Packer, blocks: seq<seq<byte>>, base: nat, t: Table)
  {
    t == Collect(LocatedFrom(p, blocks, base, 0))
  }

  lemma TableIsStream(p: Packer, blocks: seq<seq<byte>>, base: nat, t: Table)
    requires ReadsAs(p, blocks, base, t)
    ensures t.bytes == Flatten(blocks)
  {
    hide EncodeBlocks, LocatedFrom, Collect;
    var n := |blocks|;
    var l := LocatedFrom(p, blocks, base, 0);
    assert blocks[..n] == blocks && l[..n] == l;
    CollectBytes(p, blocks, base, n);
  }

  /** A reference that names a position resolves to that position. */
  lemma ResolveNamed(p: Packer, blocks: seq<seq<byte>>, base: nat, t: Table, r: Ref, pos: nat)
    requires WellCut(blocks) && Names(p, blocks, r, pos) && ReadsAs(p, blocks, base, t)
    requires pos < |Flatten(blocks)| && |EncodeBlocks(p, blocks)| < 0x1_0000_0000
    ensures Resolve(t, base, MkInode(r)) == Some(pos)
  {
    hide EncodeBlock, EncodeBlocks, LocatedFrom, Collect, Lookup, InodeRef, MkInode;
    var n, k := |blocks|, pos / BLOCK;
    var l := LocatedFrom(p, blocks, base, 0);
    assert blocks[..n] == blocks && l[..n] == l;
    InTable(blocks, pos);
    PositionsIncrease(p, blocks, k, n);
    InodePacking(r);
    CollectLookup(p, blocks, base, n, k);
  }

  lemma InTable(blocks: seq<seq<byte>>, pos: nat)
    requires WellCut(blocks) && pos < |Flatten(blocks)|
    ensures pos / BLOCK < |blocks|
  {
    var n := |blocks| - 1;
    assert Flatten(blocks) == Flatten(blocks[..n]) + blocks[n];
    FlattenFull(blocks[..n]);
  }

  lemma FetchNamed(p: Packer, blocks: seq<seq<byte>>, base: nat, t: Table, r: Ref, pos: nat, len: nat)
    requires WellCut(blocks) && Names(p, blocks, r, pos) && ReadsAs(p, blocks, base, t)
    requires 0 < len && pos + len <= |Flatten(blocks)| && |EncodeBlocks(p, blocks)| < 0x1_0000_0000
    ensures Fetch(t, base, MkInode(r), len) == Some(Flatten(blocks)[pos..pos + len])
  {
    hide EncodeBlocks, Resolve, ReadsAs, Names;
    ResolveNamed(p, blocks, base, t, r, pos);
    TableIsStream(p, blocks, base, t);
  }

  // ---------- whole runs ----------

  function PutAll(m: Meta, items: seq<seq<byte>>): Meta
  {
    if items == [] then m else Put(PutAll(m, items[..|items| - 1]), items[|items| - 1])
  }

  lemma {:induction false} PutAllGrows(m: Meta, items: seq<seq<byte>>, i: nat)
    requires Full(m.blocks) && i < |items|
    ensures Full(PutAll(m, items).blocks)
    ensures Flush(PutAll(m, items[..i])).blocks <= PutAll(m, items).blocks
    ensures Full(PutAll(m, items[..i]).blocks)
    ensures Stream(PutAll(m, items[..i])) + items[i] <= Stream(PutAll(m, items))
    decreases |items|
  {
    var n := |items| - 1;
    var front := items[..n];
    PutStream(PutAll(m, front), items[n]);
    if i < n {
      PutAllGrows(m, front, i);
      assert front[..i] == items[..i];
    } else if n > 0 {
      PutAllGrows(m, front, n - 1);
    }
  }

  /** For every list of items stored one after the other in any writer state: once
      the table is closed, written anywhere in an image and read back, the reference
      issued for item i resolves to exactly the bytes of item i. */
  lemma ReferencesResolve(p: Packer, m: Meta, items: seq<seq<byte>>, i: nat, image: seq<byte>, base: nat)
    requires Lossless(p.codec) && Full(m.blocks)
    requires i < |items| && items[i] != []
    requires var blocks := Close(PutAll(m, items));
             Holds(image, base, EncodeBlocks(p, blocks)) && |EncodeBlocks(p, blocks)| < 0x1_0000_0000
    ensures var end := base + |EncodeBlocks(p, Close(PutAll(m, items)))|;
            var found := ReadBlocks(p.codec, image, base, end);
            found.Some?
            && Fetch(Collect(found.value), base, MkInode(RefOf(p, PutAll(m, items[..i]))), |items[i]|) == Some(items[i])
  {
    hide EncodeBlock, Put, PutAll, Fetch, Collect, LocatedFrom, RefOf, MkInode;
    var before, after := PutAll(m, items[..i]), PutAll(m, items);
    var blocks := Close(after);
    PutAllGrows(m, items, i);
    CloseStream(after);
    ReadBlocksBack(p, blocks, image, base, 0);
    assert Position(p, blocks, 0) == 0;
    RefNames(p, before, blocks);
    var pos, len := |Stream(before)|, |items[i]|;
    assert Flatten(blocks)[pos..pos + len] == (Stream(before) + items[i])[pos..pos + len] == items[i];
    FetchNamed(p, blocks, base, Collect(LocatedFrom(p, blocks, base, 0)), RefOf(p, before), pos, len);
  }

  // ---------- the writer as the program keeps it ----------

  /** inode_table/data_cache, directory_table/directory_data_cache and the xattr
      pair: compressed bytes so far and the uncompressed cache. `meta` records which
      uncompressed blocks the compressed bytes stand for. */
  class Writer {
    const packer: Packer
    var table: seq<byte>
    var cache: seq<byte>
    ghost var meta: Meta

    ghost predicate Valid()
      reads this
    {
      Stands() && Full(meta.blocks)
    }

    ghost predicate Stands()
      reads this
    {
      meta.cache == cache && table == EncodeBlocks(packer, meta.blocks)
    }

    constructor (packer: Packer)
      ensures Valid() && meta == Meta([], []) && this.packer == packer
    {
      this.packer := packer;
      table, cache := [], [];
      meta := Meta([], []);
    }

    /** A table in the state it had when it was saved. */
    constructor Resume(packer: Packer, table: seq<byte>, cache: seq<byte>, ghost blocks: seq<seq<byte>>)
      requires table == EncodeBlocks(packer, blocks)
      ensures Stands() && meta == Meta(blocks, cache) && this.packer == packer && this.table == table
    {
      this.packer := packer;
      this.table, this.cache := table, cache;
      meta := Meta(blocks, cache);
    }

    /** Compress the first block of the cache onto the table. */
    method FlushBlock(size: nat)
      requires 0 < size <= |cache|
      modifies this
      ensures table == old(table) + EncodeBlock(packer, old(cache)[..size])
      ensures cache == old(cache)[size..] && meta == old(meta)
    {
      var st := Mangle(packer, cache[..size]);
      table := table + PutLe(MetaWord(st), 2) + st.data;
      cache := cache[size..];
    }

    /** get_inode / get_xattr_space followed by filling the space: flush what is
        full, then append; the reference is taken at that moment. */
    method Append(data: seq<byte>) returns (r: Ref)
      requires Valid()
      modifies this
      ensures Valid() && meta == Put(old(meta), data) && r == RefOf(packer, old(meta))
    {
      while |cache| >= BLOCK
        invariant Valid() && Flush(meta) == Flush(old(meta))
        decreases |cache|
      {
        ghost var b := cache[..BLOCK];
        FlushBlock(BLOCK);
        ghost var blocks := meta.blocks + [b];
        assert blocks[..|blocks| - 1] == meta.blocks;
        meta := Meta(blocks, cache);
      }
      r := Ref(|table|, |cache|);
      cache := cache + data;
      meta := Meta(meta.blocks, cache);
    }

    /** write_inodes / write_directories: compress everything that is left. */
    method Finish()
      requires Stands()
      modifies this
      ensures cache == [] && table == EncodeBlocks(packer, Close(old(meta)))
    {
      hide EncodeBlock;
      ghost var done := meta.blocks;
      assert done + Chop(cache) == Close(meta);
      while cache != []
        invariant table == EncodeBlocks(packer, done) && done + Chop(cache) == Close(old(meta))
        decreases |cache|
      {
        var avail := if |cache| > BLOCK then BLOCK else |cache|;
        ghost var b := cache[..avail];
        assert |cache| <= BLOCK ==> b == cache;
        assert Chop(cache) == [b] + Chop(cache[avail..]);
        FlushBlock(avail);
        assert (done + [b])[..|done|] == done;
        assert done + ([b] + Chop(cache)) == (done + [b]) + Chop(cache);
        done := done + [b];
      }
      assert done + [] == done;
    }
  }
}
