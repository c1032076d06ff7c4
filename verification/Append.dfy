/** Appending to an existing file system and giving up: the state saved before the first
    change, what appending does to the metadata buffers in between, and what the restored
    tables hold. */
module Append {
  import opened Bytes
  import opened Compressor
  import opened Metadata
  import Directory

  // ---------- cutting a stream again ----------

  lemma {:induction false} FlattenCut(blocks: seq<seq<byte>>)
    requires WellCut(blocks)
    ensures Chop(Flatten(blocks)) == blocks
    decreases |blocks|
  {
    if |blocks| == 1 {
      assert blocks[..0] == [];
      assert Flatten(blocks) == Flatten(blocks[..0]) + blocks[0] == blocks[0];
      assert blocks == [blocks[0]];
    } else if |blocks| > 1 {
      var first, rest := [blocks[0]], blocks[1..];
      assert blocks == first + rest;
      FlattenAppend(first, rest);
      assert first[..0] == [];
      assert Flatten(first) == Flatten(first[..0]) + blocks[0];
      FlattenCut(rest);
      assert Flatten(rest) != [] by { CutSome(rest); }
      var s := Flatten(blocks);
      assert s[..BLOCK] == blocks[0] && s[BLOCK..] == Flatten(rest);
    }
  }

  lemma CutSome(blocks: seq<seq<byte>>)
    requires WellCut(blocks) && blocks != []
    ensures Flatten(blocks) != []
  {
  }

  lemma WellCutRest(blocks: seq<seq<byte>>, k: nat)
    requires WellCut(blocks) && k <= |blocks|
    ensures WellCut(blocks[k..]) && WellCut(blocks[..k])
    ensures k < |blocks| ==> Full(blocks[..k])
  {
    assert forall i :: 0 <= i < |blocks[k..]| ==> blocks[k..][i] == blocks[k + i];
  }

  /** The size of a well cut list: full blocks and the last. */
  lemma CutSize(blocks: seq<seq<byte>>)
    requires WellCut(blocks) && blocks != []
    ensures var n := |blocks| - 1;
            |Flatten(blocks)| == BLOCK * n + |blocks[n]|
  {
    FlattenFull(blocks[..|blocks| - 1]);
  }

  // ---------- the inode table ----------

  /** What is saved of the inode table: the compressed blocks before the one with the root
      inode, and everything from there on uncompressed; the root inode is the last. */
  function SavedInodes(blocks: seq<seq<byte>>, b: nat): Meta
    requires b <= |blocks|
  {
    Meta(blocks[..b], Flatten(blocks[b..]))
  }

  /** The restored inode table is the old one, block by block. */
  lemma InodesRestored(blocks: seq<seq<byte>>, b: nat)
    requires WellCut(blocks) && b <= |blocks|
    ensures Close(SavedInodes(blocks, b)) == blocks
  {
    WellCutRest(blocks, b);
    FlattenCut(blocks[b..]);
    assert blocks[..b] + blocks[b..] == blocks;
  }

  // ---------- the directory table ----------

  /** inode_dir_offset + inode_dir_file_size: the bytes from the block in which the root
      directory begins to the end of the table; the root directory is the last. */
  function DirBytes(blocks: seq<seq<byte>>, b: nat): nat
    requires b <= |blocks|
  {
    |Flatten(blocks[b..])|
  }

  /** last_directory_block: the last block squashfs_readdir reads. */
  function LastRead(blocks: seq<seq<byte>>, b: nat): (k: nat)
    requires b <= |blocks|
    ensures b <= k <= |blocks|
  {
    if b == |blocks| then b else |blocks| - 1
  }

  /** What is saved of the directory table: the compressed blocks before the last one read,
      and the uncompressed bytes past the last multiple of the block size. */
  function SavedDirs(blocks: seq<seq<byte>>, b: nat): Meta
    requires b <= |blocks|
  {
    var total := DirBytes(blocks, b);
    Meta(blocks[..LastRead(blocks, b)], Flatten(blocks[b..])[total - total % BLOCK..])
  }

  /** The root directory does not end on a block boundary, or the table ends where it begins. */
  predicate TailIsSaved(blocks: seq<seq<byte>>, b: nat)
    requires b <= |blocks|
  {
    DirBytes(blocks, b) == 0 || DirBytes(blocks, b) % BLOCK != 0
  }

  lemma SavedTail(blocks: seq<seq<byte>>, b: nat)
    requires WellCut(blocks) && b <= |blocks|
    ensures TailIsSaved(blocks, b) ==> SavedDirs(blocks, b).cache == Flatten(blocks[LastRead(blocks, b)..])
    ensures !TailIsSaved(blocks, b) ==>
              b < |blocks| && LastRead(blocks, b) == |blocks| - 1 && SavedDirs(blocks, b).cache == []
  {
    var rest, total := blocks[b..], DirBytes(blocks, b);
    WellCutRest(blocks, b);
    if b < |blocks| {
      var n := |rest| - 1;
      CutSize(rest);
      CutSome(rest);
      if total % BLOCK != 0 {
        FlattenFull(rest[..n]);
        assert Flatten(rest) == Flatten(rest[..n]) + rest[n];
        assert total - total % BLOCK == BLOCK * n;
        var one := blocks[|blocks| - 1..];
        assert one == [rest[n]] && one[..0] == [];
        assert Flatten(one) == Flatten(one[..0]) + rest[n];
      }
    }
  }

  /** The restored directory table is the old one exactly then; otherwise its last block is
      lost. */
  lemma DirsRestored(blocks: seq<seq<byte>>, b: nat)
    requires WellCut(blocks) && b <= |blocks|
    ensures Close(SavedDirs(blocks, b)) == blocks <==> TailIsSaved(blocks, b)
    ensures !TailIsSaved(blocks, b) ==> Close(SavedDirs(blocks, b)) == blocks[..|blocks| - 1]
  {
    SavedTail(blocks, b);
    if TailIsSaved(blocks, b) {
      InodesRestored(blocks, LastRead(blocks, b));
    } else {
      assert blocks[..|blocks| - 1] + [] == blocks[..|blocks| - 1];
    }
  }

  // ---------- a root directory that fills its block ----------

  /** 31 names, of the byte 97 only, of 98 only and so on. */
  function LongName(i: nat): (name: seq<byte>)
    requires i < 31
    ensures |name| == if i < 30 then 256 else 252
  {
    var letter: byte := 97 + i;
    seq(if i < 30 then 256 else 252, _ => letter)
  }

  function LongEntry(i: nat): Directory.DirEntry
    requires i < 31
  {
    Directory.DirEntry(Ref(0, 0), i + 1, LongName(i), 2)
  }

  function LongEntries(n: nat): (es: seq<Directory.DirEntry>)
    requires n <= 31
    ensures |es| == n && forall i :: 0 <= i < n ==> es[i] == LongEntry(i)
  {
    seq(n, i requires 0 <= i < n => LongEntry(i))
  }

  lemma LongStorable(n: nat)
    requires n <= 31
    ensures Directory.AllStorable(LongEntries(n)) && Directory.AllTruncated(LongEntries(n)) == LongEntries(n)
    ensures forall i, j :: 0 <= i < j < n ==> LongEntries(n)[i].name[0] < LongEntries(n)[j].name[0]
  {
    hide LongEntries;
  }

  ghost predicate OneRun(l: Directory.Layout, n: nat)
  {
    && |l.runs| == 1 && |l.runs[0].entries| == n && l.runs[0].block == 0 && l.runs[0].number == 1 && l.marked == 0
    && Directory.Size(l.runs) == if n < 31 then 12 + 264 * n else BLOCK
  }

  lemma NextLong(l: Directory.Layout, e: Directory.DirEntry, n: nat)
    requires 1 <= n < 31 && OneRun(l, n) && e.ref.block == 0 && e.number == n + 1 &&
             |e.name| == if n < 30 then 256 else 252
    ensures OneRun(Directory.Place(l, e), n + 1)
  {
    hide Directory.Size, Directory.Place, Directory.EntriesSize;
    Directory.PlaceIs(l, e, e);
    Directory.PlaceSize(l, e);
  }

  lemma FirstLong(e: Directory.DirEntry)
    requires e.ref.block == 0 && e.number == 1 && |e.name| == 256
    ensures OneRun(Directory.Place(Directory.Layout([], 0, []), e), 1)
  {
    hide Directory.Size, Directory.Place, Directory.EntriesSize;
    var l := Directory.Layout([], 0, []);
    Directory.PlaceIs(l, e, e);
    Directory.PlaceSize(l, e);
    Directory.EmptySize();
  }

  /** They all go into one run. */
  lemma {:induction false} LongRun(n: nat)
    requires 1 <= n <= 31
    ensures OneRun(Directory.Build(LongEntries(n)), n)
  {
    hide Directory.Place, OneRun, LongEntries;
    var es, e := LongEntries(n), LongEntry(n - 1);
    assert es[..n - 1] == LongEntries(n - 1) && es[n - 1] == e;
    if n > 1 {
      LongRun(n - 1);
      NextLong(Directory.Build(es[..n - 1]), e, n - 1);
    } else {
      assert es[..0] == [];
      FirstLong(e);
    }
  }

  lemma LongSize(n: nat)
    requires n == 31
    ensures Directory.AllStorable(LongEntries(n)) && |Directory.EncodeDir(LongEntries(n))| == BLOCK
  {
    hide Directory.EncodeRuns, Directory.Build, Directory.Size, LongEntries;
    LongStorable(n);
    var es := LongEntries(n);
    Directory.BuildRunsOk(es);
    Directory.RunsNoneEmpty(Directory.Build(es).runs);
    Directory.EncodeRunsSize(Directory.Build(es).runs);
    LongRun(n);
  }

  lemma OneFullBlock(dir: seq<byte>)
    requires |dir| == BLOCK
    ensures Close(Put(Meta([], []), dir)) == [dir] && !TailIsSaved([dir], 0) && Close(SavedDirs([dir], 0)) == []
  {
    assert [] + dir == dir && [] + [dir] == [dir];
    var blocks := [dir];
    assert blocks[0..] == blocks && blocks[..0] == [];
    assert Flatten(blocks) == Flatten(blocks[..0]) + dir;
    DirsRestored(blocks, 0);
  }

  /** This directory takes exactly one block, which an aborted append loses: what is left of
      the table cannot be read as the directory. */
  lemma FullBlockIsLost(n: nat)
    requires n == 31
    ensures Directory.AllStorable(LongEntries(n))
    ensures var dir := Directory.EncodeDir(LongEntries(n));
            && |dir| == BLOCK && Close(Put(Meta([], []), dir)) == [dir]
            && !TailIsSaved([dir], 0) && Close(SavedDirs([dir], 0)) == []
            && Directory.DecodeRuns(dir, 0, BLOCK) == Some(LongEntries(n))
            && Directory.DecodeRuns([], 0, BLOCK) == None
  {
    hide Directory.EncodeDir, Directory.DecodeRuns, LongEntries, Close, Put, TailIsSaved, SavedDirs,
      Directory.AllStorable;
    LongStorable(n);
    LongSize(n);
    var dir := Directory.EncodeDir(LongEntries(n));
    OneFullBlock(dir);
    TakeAll(dir);
    Directory.DirectoryRoundTrip(LongEntries(n), dir, 0);
    NothingDecodes();
  }

  lemma NothingDecodes()
    ensures Directory.DecodeRuns([], 0, BLOCK) == None
  {
  }

  /** squashfs_readdir, as far as it finds the last block it reads. */
  method FindLastBlock(c: Codec, image: seq<byte>, start0: nat, size: nat, ghost p: Packer,
                       ghost blocks: seq<seq<byte>>, ghost base: nat, ghost b: nat)
    returns (last: Option<nat>, data: seq<byte>)
    requires Lossless(p.codec) && p.codec.uncompress == c.uncompress && WellCut(blocks) && b <= |blocks|
    requires Holds(image, base, EncodeBlocks(p, blocks))
    requires start0 == base + Position(p, blocks, b) && size == DirBytes(blocks, b)
    ensures last == Some(base + Position(p, blocks, LastRead(blocks, b))) && data == Flatten(blocks[b..])
  {
    hide ReadBlock, EncodeBlock, EncodeBlocks, Lossless, Flatten, WellCut, Holds, DirBytes;
    var start := start0;
    data := [];
    last := Some(start);
    ghost var k := b;
    NothingRead(blocks, b);
    while |data| < size
      invariant b <= k <= |blocks| && data == Flatten(blocks[b..k]) && start == base + Position(p, blocks, k)
      invariant last == Some(base + Position(p, blocks, if k == b then b else k - 1))
      decreases |blocks| - k
    {
      assert k < |blocks| by { AllRead(blocks, b, k); }
      var expected := if size - |data| >= BLOCK then BLOCK else 0;
      ExpectedRight(blocks, b, k);
      BlockSize(blocks, k);
      last := Some(start);
      BlockInTable(p, blocks, k);
      HoldsTrans(image, base, EncodeBlocks(p, blocks), Position(p, blocks, k), EncodeBlock(p, blocks[k]));
      ReadBlockBack(p, blocks[k], image, start, expected);
      ReadAlike(p.codec, c, image, start, expected);
      PositionNext(p, blocks, k);
      var r := ReadBlock(c, image, start, expected);
      FlattenNext(blocks, b, k);
      data := data + r.value.0;
      start := r.value.1;
      k := k + 1;
    }
    ReadAll(blocks, b, k);
  }

  lemma NothingRead(blocks: seq<seq<byte>>, b: nat)
    requires b <= |blocks|
    ensures Flatten(blocks[b..b]) == []
  {
    assert blocks[b..b] == [];
  }

  lemma BlockSize(blocks: seq<seq<byte>>, k: nat)
    requires WellCut(blocks) && k < |blocks|
    ensures 0 < |blocks[k]| <= BLOCK
  {
  }

  lemma AllRead(blocks: seq<seq<byte>>, b: nat, k: nat)
    requires b <= k <= |blocks| && |Flatten(blocks[b..k])| < DirBytes(blocks, b)
    ensures k < |blocks|
  {
    assert blocks[b..|blocks|] == blocks[b..];
  }

  lemma FlattenNext(blocks: seq<seq<byte>>, b: nat, k: nat)
    requires b <= k < |blocks|
    ensures Flatten(blocks[b..k + 1]) == Flatten(blocks[b..k]) + blocks[k]
  {
    assert blocks[b..k + 1][..k - b] == blocks[b..k];
  }

  /** What is left to read, block by block. */
  lemma LeftToRead(blocks: seq<seq<byte>>, b: nat, k: nat)
    requires b <= k <= |blocks|
    ensures DirBytes(blocks, b) == |Flatten(blocks[b..k])| + |Flatten(blocks[k..])|
  {
    FlattenAppend(blocks[b..k], blocks[k..]);
    assert blocks[b..] == blocks[b..k] + blocks[k..];
  }

  lemma ExpectedRight(blocks: seq<seq<byte>>, b: nat, k: nat)
    requires WellCut(blocks) && b <= k < |blocks|
    ensures DirBytes(blocks, b) - |Flatten(blocks[b..k])| >= BLOCK ==> |blocks[k]| == BLOCK
  {
    LeftToRead(blocks, b, k);
    if k == |blocks| - 1 {
      assert blocks[k..] == [blocks[k]];
      var one := blocks[k..];
      assert one[..0] == [];
      assert Flatten(one) == Flatten(one[..0]) + blocks[k];
    }
  }

  lemma RestSome(blocks: seq<seq<byte>>, k: nat)
    requires WellCut(blocks) && k <= |blocks|
    ensures k < |blocks| ==> Flatten(blocks[k..]) != []
  {
    WellCutRest(blocks, k);
    if k < |blocks| {
      CutSome(blocks[k..]);
    }
  }

  lemma ReadAll(blocks: seq<seq<byte>>, b: nat, k: nat)
    requires WellCut(blocks) && b <= k <= |blocks| && |Flatten(blocks[b..k])| >= DirBytes(blocks, b)
    ensures k == |blocks| && Flatten(blocks[b..k]) == Flatten(blocks[b..])
  {
    LeftToRead(blocks, b, k);
    RestSome(blocks, k);
    assert blocks[b..|blocks|] == blocks[b..];
  }

  // ---------- appending, one change at a time ----------

  /** A metadata table being built: the compressed bytes in use and the cache. */
  datatype Building = Building(table: seq<byte>, cache: seq<byte>)

  /** The single changes made by get_inode, get_xattr_space, write_dir and the final writes: a
      block at the front of the cache is compressed onto the table, it leaves the cache, or
      data is added to the cache. An abort may fall between any two of them. */
  datatype Move = Emit(n: nat) | Shift(n: nat) | Add(data: seq<byte>)

  function Do(p: Packer, s: Building, mv: Move): Building
  {
    match mv
    case Emit(n) => if n <= |s.cache| then s.(table := s.table + EncodeBlock(p, s.cache[..n])) else s
    case Shift(n) => if n <= |s.cache| then s.(cache := s.cache[n..]) else s
    case Add(data) => s.(cache := s.cache + data)
  }

  function DoAll(p: Packer, s: Building, moves: seq<Move>): Building
  {
    if moves == [] then s else Do(p, DoAll(p, s, moves[..|moves| - 1]), moves[|moves| - 1])
  }

  lemma {:induction false} DoAllSplit(p: Packer, s: Building, a: seq<Move>, b: seq<Move>)
    ensures DoAll(p, s, a + b) == DoAll(p, DoAll(p, s, a), b)
    decreases |b|
  {
    hide Do;
    if b == [] {
      assert a + b == a;
    } else {
      var n := |b| - 1;
      assert (a + b)[..|a + b| - 1] == a + b[..n];
      DoAllSplit(p, s, a, b[..n]);
    }
  }

  lemma DoOne(p: Packer, s: Building, mv: Move)
    ensures DoAll(p, s, [mv]) == Do(p, s, mv)
  {
    hide Do;
    assert [mv][..0] == [];
  }

  /** The state the metadata writer is in. */
  function Built(p: Packer, m: Meta): Building
  {
    Building(EncodeBlocks(p, m.blocks), m.cache)
  }

  lemma EmitBlock(p: Packer, m: Meta, n: nat)
    requires n <= |m.cache|
    ensures DoAll(p, Built(p, m), [Emit(n), Shift(n)]) == Built(p, Meta(m.blocks + [m.cache[..n]], m.cache[n..]))
  {
    hide EncodeBlock;
    var blocks := m.blocks + [m.cache[..n]];
    assert blocks[..|blocks| - 1] == m.blocks;
    DoAllSplit(p, Built(p, m), [Emit(n)], [Shift(n)]);
    assert [Emit(n)] + [Shift(n)] == [Emit(n), Shift(n)];
    DoOne(p, Built(p, m), Emit(n));
    DoOne(p, Do(p, Built(p, m), Emit(n)), Shift(n));
  }

  lemma {:induction false} FlushMoves(p: Packer, m: Meta) returns (moves: seq<Move>)
    ensures DoAll(p, Built(p, m), moves) == Built(p, Flush(m))
    decreases |m.cache|
  {
    if |m.cache| < BLOCK {
      moves := [];
    } else {
      var rest := FlushMoves(p, Meta(m.blocks + [m.cache[..BLOCK]], m.cache[BLOCK..]));
      EmitBlock(p, m, BLOCK);
      DoAllSplit(p, Built(p, m), [Emit(BLOCK), Shift(BLOCK)], rest);
      moves := [Emit(BLOCK), Shift(BLOCK)] + rest;
    }
  }

  /** Storing an item is such a list of changes, so an abort inside it is a shorter one. */
  lemma StoreMoves(p: Packer, m: Meta, data: seq<byte>) returns (moves: seq<Move>)
    ensures DoAll(p, Built(p, m), moves) == Built(p, Put(m, data))
  {
    hide Flush, EncodeBlocks;
    var flush := FlushMoves(p, m);
    DoAllSplit(p, Built(p, m), flush, [Add(data)]);
    DoOne(p, Built(p, Flush(m)), Add(data));
    moves := flush + [Add(data)];
  }

  /** So is the final write of the table. */
  lemma {:induction false} FinishMoves(p: Packer, m: Meta) returns (moves: seq<Move>)
    ensures DoAll(p, Built(p, m), moves) == Building(EncodeBlocks(p, Close(m)), [])
    decreases |m.cache|
  {
    if m.cache == [] {
      assert Close(m) == m.blocks;
      moves := [];
    } else {
      var n := if |m.cache| > BLOCK then BLOCK else |m.cache|;
      var next := Meta(m.blocks + [m.cache[..n]], m.cache[n..]);
      assert n == |m.cache| ==> m.cache[..n] == m.cache;
      assert Chop(m.cache) == [m.cache[..n]] + Chop(next.cache);
      Assoc(m.blocks, [m.cache[..n]], Chop(next.cache));
      assert Close(next) == Close(m);
      var rest := FinishMoves(p, next);
      EmitBlock(p, m, n);
      DoAllSplit(p, Built(p, m), [Emit(n), Shift(n)], rest);
      moves := [Emit(n), Shift(n)] + rest;
    }
  }

  /** Compressed bytes once in the table stay there. */
  lemma {:induction false} TableGrows(p: Packer, s: Building, moves: seq<Move>)
    ensures s.table <= DoAll(p, s, moves).table
    decreases |moves|
  {
    hide EncodeBlock;
    if moves != [] {
      TableGrows(p, s, moves[..|moves| - 1]);
    }
  }

  // ---------- giving up ----------

  /** What the rewritten table consists of: old blocks as they were compressed, and the saved
      tail compressed again, perhaps with another saving demanded. */
  function Rewritten(p0: Packer, p: Packer, blocks: seq<seq<byte>>, k: nat, tail: seq<byte>): seq<byte>
    requires k <= |blocks|
  {
    EncodeBlocks(p0, blocks[..k]) + EncodeBlocks(p, Chop(tail))
  }

  /** Save, append until the abort, restorefs and the final write, for one table. Appending
      starts at block b with `cache0`, and the table read so far ends at block k. */
  method AbortTable(p: Packer, table0: seq<byte>, start: nat, cache0: seq<byte>, tail: seq<byte>, moves: seq<Move>,
                    ghost p0: Packer, ghost blocks: seq<seq<byte>>, ghost k: nat)
    returns (out: seq<byte>)
    requires k <= |blocks| && table0 == EncodeBlocks(p0, blocks[..k]) && start <= |table0|
    ensures out == Rewritten(p0, p, blocks, k, tail)
  {
    hide EncodeBlock, EncodeBlocks, Do;
    var sbytes, scompressed, scache := start, table0[start..], tail;
    var s := Building(table0[..start], cache0);
    ghost var s0 := s;
    for i := 0 to |moves|
      invariant s == DoAll(p, s0, moves[..i])
    {
      s := Do(p, s, moves[i]);
      TakeTake(moves, i, i + 1);
    }
    TableGrows(p, s0, moves[..|moves|]);
    var table := s.table[..sbytes];
    assert table == table0[..start];
    table := table + scompressed;
    assert table == table0;
    EncodeNothing(p);
    var w := new Writer.Resume(p, [], scache, []);
    w.Finish();
    assert Close(Meta([], tail)) == Chop(tail);
    out := table + w.table;
  }

  lemma EncodeNothing(p: Packer)
    ensures EncodeBlocks(p, []) == []
  {
  }

  lemma {:induction false} EncodeAppend(p: Packer, a: seq<seq<byte>>, b: seq<seq<byte>>)
    ensures EncodeBlocks(p, a + b) == EncodeBlocks(p, a) + EncodeBlocks(p, b)
    decreases |b|
  {
    hide EncodeBlock;
    if b == [] {
      assert a + b == a;
    } else {
      var n := |b| - 1;
      assert (a + b)[..|a + b| - 1] == a + b[..n];
      EncodeAppend(p, a, b[..n]);
      Assoc(EncodeBlocks(p, a), EncodeBlocks(p, b[..n]), EncodeBlock(p, b[n]));
    }
  }

  /** With the saving demanded as before, the rewritten table is the old one byte for byte. */
  lemma RewrittenSame(p: Packer, blocks: seq<seq<byte>>, k: nat)
    requires WellCut(blocks) && k <= |blocks|
    ensures Rewritten(p, p, blocks, k, Flatten(blocks[k..])) == EncodeBlocks(p, blocks)
  {
    hide EncodeBlocks;
    WellCutRest(blocks, k);
    FlattenCut(blocks[k..]);
    EncodeAppend(p, blocks[..k], blocks[k..]);
    assert blocks[..k] + blocks[k..] == blocks;
  }

  // ---------- reading a rewritten table ----------

  /** Two packers whose blocks the same reader can read. */
  ghost predicate Alike(p0: Packer, p: Packer)
  {
    Lossless(p0.codec) && Lossless(p.codec) && p0.codec.uncompress == p.codec.uncompress
  }

  /** Reading through blocks that are full, or the last of all. */
  lemma {:induction false} ReadThrough(p0: Packer, c: Codec, blocks: seq<seq<byte>>, image: seq<byte>, base: nat,
                                       end: nat, rest: seq<Located>, j: nat)
    requires Lossless(p0.codec) && p0.codec.uncompress == c.uncompress && WellCut(blocks) && j <= |blocks|
    requires Holds(image, base, EncodeBlocks(p0, blocks))
    requires ReadBlocks(c, image, base + |EncodeBlocks(p0, blocks)|, end) == Some(rest)
    requires base + |EncodeBlocks(p0, blocks)| <= end
    requires Full(blocks) || end == base + |EncodeBlocks(p0, blocks)|
    ensures ReadBlocks(c, image, base + Position(p0, blocks, j), end) == Some(LocatedFrom(p0, blocks, base, j) + rest)
    decreases |blocks| - j
  {
    hide EncodeBlock, EncodeBlocks, ReadBlock, LocatedFrom;
    var n := |blocks|;
    assert blocks[..n] == blocks;
    if j < n {
      PositionsIncrease(p0, blocks, j, n);
      BlockInTable(p0, blocks, j);
      HoldsTrans(image, base, EncodeBlocks(p0, blocks), Position(p0, blocks, j), EncodeBlock(p0, blocks[j]));
      ReadBlockBack(p0, blocks[j], image, base + Position(p0, blocks, j), 0);
      ReadAlike(p0.codec, c, image, base + Position(p0, blocks, j), 0);
      PositionNext(p0, blocks, j);
      if j + 1 < n {
        PositionsIncrease(p0, blocks, j + 1, n);
      }
      ReadThrough(p0, c, blocks, image, base, end, rest, j + 1);
      LocatedStep(p0, blocks, base, j);
      Assoc([Located(base + Position(p0, blocks, j), blocks[j])], LocatedFrom(p0, blocks, base, j + 1), rest);
    } else {
      assert [] + rest == rest;
    }
  }

  lemma ReadAlike(a: Codec, b: Codec, image: seq<byte>, start: nat, expected: nat)
    requires a.uncompress == b.uncompress
    ensures ReadBlock(a, image, start, expected) == ReadBlock(b, image, start, expected)
  {
  }

  /** The blocks found are these, and the first k + 1 of them begin where they did. */
  ghost predicate Finds(found: seq<Located>, p0: Packer, blocks: seq<seq<byte>>, base: nat, k: nat)
  {
    && |found| == |blocks| && (forall i :: 0 <= i < |found| ==> found[i].data == blocks[i])
    && (forall i :: 0 <= i < |found| && i <= k ==> found[i].start == base + Position(p0, blocks, i))
    && Rising(found)
  }

  /** Reading the table in image[base..end] finds the blocks. */
  ghost predicate Decodes(c: Codec, image: seq<byte>, base: nat, end: nat, p0: Packer, blocks: seq<seq<byte>>, k: nat)
  {
    ReadBlocks(c, image, base, end).Some? && Finds(ReadBlocks(c, image, base, end).value, p0, blocks, base, k)
  }

  ghost predicate Rising(found: seq<Located>)
  {
    forall i, j :: 0 <= i < j < |found| ==> found[i].start < found[j].start
  }

  lemma RisingJoin(x: seq<Located>, y: seq<Located>, mid: nat)
    requires Rising(x) && Rising(y)
    requires forall i :: 0 <= i < |x| ==> x[i].start < mid
    requires forall i :: 0 <= i < |y| ==> mid <= y[i].start
    ensures Rising(x + y)
  {
  }

  lemma LocatedRising(p: Packer, blocks: seq<seq<byte>>, base: nat)
    ensures Rising(LocatedFrom(p, blocks, base, 0))
    ensures forall i :: 0 <= i < |blocks| ==>
            LocatedFrom(p, blocks, base, 0)[i].start < base + |EncodeBlocks(p, blocks)|
  {
    hide EncodeBlocks, LocatedFrom;
    var x, n := LocatedFrom(p, blocks, base, 0), |blocks|;
    assert blocks[..n] == blocks;
    forall i, j | 0 <= i < j <= n
      ensures Position(p, blocks, i) < Position(p, blocks, j)
    {
      PositionsIncrease(p, blocks, i, j);
    }
    forall i | 0 <= i < n
      ensures x[i].start < base + |EncodeBlocks(p, blocks)|
    {
      assert x[i] == Located(base + Position(p, blocks, 0 + i), blocks[0 + i]);
      assert Position(p, blocks, i) < Position(p, blocks, n);
    }
    forall i, j | 0 <= i < j < n
      ensures x[i].start < x[j].start
    {
      assert x[i] == Located(base + Position(p, blocks, 0 + i), blocks[0 + i]);
      assert x[j] == Located(base + Position(p, blocks, 0 + j), blocks[0 + j]);
      assert Position(p, blocks, i) < Position(p, blocks, j);
    }
  }

  lemma JoinFinds(p0: Packer, p: Packer, a: seq<seq<byte>>, b: seq<seq<byte>>, base: nat)
    ensures var mid := base + |EncodeBlocks(p0, a)|;
            Finds(LocatedFrom(p0, a, base, 0) + LocatedFrom(p, b, mid, 0), p0, a + b, base, |a|)
  {
    hide EncodeBlocks, LocatedFrom, Rising;
    var mid := base + |EncodeBlocks(p0, a)|;
    var x, y := LocatedFrom(p0, a, base, 0), LocatedFrom(p, b, mid, 0);
    var found := x + y;
    LocatedRising(p0, a, base);
    LocatedRising(p, b, mid);
    RisingJoin(x, y, mid);
    forall i | 0 <= i < |found|
      ensures found[i].data == (a + b)[i]
      ensures i <= |a| ==> found[i].start == base + Position(p0, a + b, i)
    {
      if i < |a| {
        assert x[i] == Located(base + Position(p0, a, 0 + i), a[0 + i]);
        assert (a + b)[..i] == a[..i];
      } else {
        var j := i - |a|;
        assert y[j] == Located(mid + Position(p, b, 0 + j), b[0 + j]);
        AtStart(p, b);
        assert (a + b)[..|a|] == a;
      }
    }
  }

  /** A rewritten table with the right tail reads as the old one. */
  lemma RewrittenDecodes(p0: Packer, p: Packer, blocks: seq<seq<byte>>, k: nat, image: seq<byte>, base: nat)
    requires Alike(p0, p) && WellCut(blocks) && k <= |blocks|
    requires Holds(image, base, Rewritten(p0, p, blocks, k, Flatten(blocks[k..])))
    ensures Decodes(p.codec, image, base, base + |Rewritten(p0, p, blocks, k, Flatten(blocks[k..]))|, p0, blocks, k)
  {
    hide EncodeBlocks, LocatedFrom, Lossless, ReadBlocks, Finds, WellCut;
    var a, b := blocks[..k], blocks[k..];
    WellCutRest(blocks, k);
    FlattenCut(b);
    var ea, eb := EncodeBlocks(p0, a), EncodeBlocks(p, b);
    var mid := base + |ea|;
    HoldsPart(image, base, [], ea, eb) by { assert [] + ea + eb == ea + eb; }
    HoldsPart(image, base, ea, eb, []) by { assert ea + eb + [] == ea + eb; }
    ReadBlocksBack(p, b, image, mid, 0);
    AtStart(p, b);
    AtStart(p0, a);
    if k == |blocks| {
      assert b == [];
      EncodeNothing(p);
    }
    ReadThrough(p0, p.codec, a, image, base, mid + |eb|, LocatedFrom(p, b, mid, 0), 0);
    JoinFinds(p0, p, a, b, base);
    assert a + b == blocks;
  }

  lemma AtStart(p: Packer, blocks: seq<seq<byte>>)
    ensures Position(p, blocks, 0) == 0
  {
  }

  // ---------- references into a rewritten table ----------

  lemma {:induction false} FoundBytes(found: seq<Located>, blocks: seq<seq<byte>>, n: nat)
    requires n <= |found| == |blocks| && forall i :: 0 <= i < |found| ==> found[i].data == blocks[i]
    ensures Collect(found[..n]).bytes == Flatten(blocks[..n])
    decreases n
  {
    if n > 0 {
      FoundBytes(found, blocks, n - 1);
      TakeTake(found, n - 1, n);
      TakeTake(blocks, n - 1, n);
    }
  }

  lemma {:induction false} FoundLookup(found: seq<Located>, blocks: seq<seq<byte>>, n: nat, j: nat)
    requires j < n <= |found| == |blocks| && WellCut(blocks) && Rising(found)
    requires forall i :: 0 <= i < |found| ==> found[i].data == blocks[i]
    ensures Lookup(Collect(found[..n]).index, found[j].start) == Some(BLOCK * j)
    decreases n
  {
    hide AddEntry, Lookup;
    var t := Collect(found[..n - 1]);
    TakeTake(found, n - 1, n);
    LookupAfterAdd(t.index, found[n - 1].start, |t.bytes|, found[j].start);
    if j == n - 1 {
      FoundBytes(found, blocks, n - 1);
      FlattenFull(blocks[..n - 1]);
    } else {
      FoundLookup(found, blocks, n - 1, j);
    }
  }

  /** A reference into one of the first k + 1 blocks fetches what it did before. */
  lemma FetchKept(p0: Packer, blocks: seq<seq<byte>>, base0: nat, t0: Table, found: seq<Located>, base: nat, k: nat,
                  j: nat, r: Ref, len: nat)
    requires WellCut(blocks) && ReadsAs(p0, blocks, base0, t0) && Finds(found, p0, blocks, base, k)
    requires j < |blocks| && j <= k && r.block == Position(p0, blocks, j) < 0x1_0000_0000 && r.offset < 0x1_0000
    ensures Collect(found).bytes == t0.bytes
    ensures Fetch(Collect(found), base, MkInode(r), len) == Fetch(t0, base0, MkInode(r), len)
  {
    hide EncodeBlocks, LocatedFrom, Collect, Lookup, InodeRef, MkInode, Rising;
    var n, l := |blocks|, LocatedFrom(p0, blocks, base0, 0);
    TakeAll(blocks);
    TakeAll(found);
    TakeAll(l);
    TableIsStream(p0, blocks, base0, t0);
    FoundBytes(found, blocks, n);
    FoundLookup(found, blocks, n, j);
    CollectLookup(p0, blocks, base0, n, j);
    InodePacking(r);
  }

  // ---------- the inode table ----------

  const DIR_INODE: nat := 32

  lemma RestOfStream(blocks: seq<seq<byte>>, b: nat)
    requires WellCut(blocks) && b < |blocks|
    ensures BLOCK * b <= |Flatten(blocks)| && Flatten(blocks)[BLOCK * b..] == Flatten(blocks[b..])
  {
    WellCutRest(blocks, b);
    FlattenAppend(blocks[..b], blocks[b..]);
    FlattenFull(blocks[..b]);
    assert blocks[..b] + blocks[b..] == blocks;
  }

  /** What scan_inode_table finds in a sound image. */
  lemma ScanFinds(p0: Packer, c: Codec, image: seq<byte>, base: nat, blocks: seq<seq<byte>>, b: nat)
    requires Lossless(p0.codec) && p0.codec.uncompress == c.uncompress && WellCut(blocks) && b < |blocks|
    requires Holds(image, base, EncodeBlocks(p0, blocks))
    ensures var found := ReadBlocks(c, image, base, base + |EncodeBlocks(p0, blocks)|);
            && found.Some? && Collect(found.value).bytes == Flatten(blocks)
            && Lookup(Collect(found.value).index, base + Position(p0, blocks, b)) == Some(BLOCK * b)
  {
    hide EncodeBlocks, LocatedFrom, Collect, Lookup;
    var l := LocatedFrom(p0, blocks, base, 0);
    ReadThrough(p0, c, blocks, image, base, base + |EncodeBlocks(p0, blocks)|, [], 0);
    AtStart(p0, blocks);
    assert l + [] == l;
    TakeAll(l);
    CollectLookup(p0, blocks, base, |blocks|, b);
    TableIsStream(p0, blocks, base, Collect(l));
  }

  /** The inode table of an aborted append: the table is scanned, everything from the root
      inode's block on is kept uncompressed, inodes are appended until the abort, and the
      restored table is written. With `becomes` the old root inode stays in the cache. */
  method AbortInodes(p: Packer, image: seq<byte>, base: nat, end: nat, root: Ref, becomes: bool, moves: seq<Move>,
                     ghost p0: Packer, ghost blocks: seq<seq<byte>>, ghost b: nat)
    returns (out: Option<seq<byte>>)
    requires Alike(p0, p) && WellCut(blocks) && b < |blocks| && root.block == Position(p0, blocks, b)
    requires Holds(image, base, EncodeBlocks(p0, blocks)) && end == base + |EncodeBlocks(p0, blocks)|
    ensures out == if |Flatten(blocks[b..])| < root.offset + DIR_INODE then None
                   else Some(Rewritten(p0, p, blocks, b, Flatten(blocks[b..])))
    ensures p0 == p && out.Some? ==> out.value == EncodeBlocks(p, blocks)
  {
    hide EncodeBlock, EncodeBlocks, Lookup, Rewritten, ReadBlocks, Collect, WellCut, Lossless;
    ScanFinds(p0, p.codec, image, base, blocks, b);
    RestOfStream(blocks, b);
    var t := ReadTable(p.codec, image, base, end);
    var at := LookupEntry(t.value.index, base + root.block);
    if |t.value.bytes| - at.value < root.offset + DIR_INODE {
      return None;
    }
    PrefixTable(p0, blocks, b);
    assert Holds(image, base, EncodeBlocks(p0, blocks));
    HoldsSlice(image, base, EncodeBlocks(p0, blocks), 0, root.block);
    var table, kept := image[base..base + root.block], t.value.bytes[at.value..];
    var cache := if becomes then kept else kept[..root.offset];
    var written := AbortTable(p, table, root.block, cache, kept, moves, p0, blocks, b);
    RewrittenSame(p, blocks, b);
    out := Some(written);
  }

  // ---------- the directory table ----------

  /** The directory table of an aborted append. */
  method AbortDirectories(p: Packer, image: seq<byte>, base: nat, start: nat, offset: nat, size: nat, becomes: bool,
                          moves: seq<Move>, ghost p0: Packer, ghost blocks: seq<seq<byte>>, ghost b: nat)
    returns (out: seq<byte>)
    requires Alike(p0, p) && WellCut(blocks) && b <= |blocks| && start == Position(p0, blocks, b)
    requires Holds(image, base, EncodeBlocks(p0, blocks)) && offset + size == DirBytes(blocks, b)
    ensures out == Rewritten(p0, p, blocks, LastRead(blocks, b), SavedDirs(blocks, b).cache)
  {
    hide EncodeBlock, EncodeBlocks, Rewritten, ReadBlocks, WellCut, Lossless;
    var last, data := FindLastBlock(p.codec, image, base + start, offset + size, p0, blocks, base, b);
    var k := last.value - base;
    PrefixTable(p0, blocks, LastRead(blocks, b));
    PositionsOrdered(p0, blocks, b, LastRead(blocks, b));
    HoldsSlice(image, base, EncodeBlocks(p0, blocks), 0, k);
    var table := image[base..base + k];
    var compressed := offset + size - (offset + size) % BLOCK;
    var tail := data[compressed..];
    var cache := if becomes then tail else data[..offset];
    out := AbortTable(p, table, if becomes then k else start, cache, tail, moves, p0, blocks, LastRead(blocks, b));
  }

  /** The rewritten directory table reads as the old one exactly when the root directory does
      not end on a block boundary, or the table ends where it begins; byte for byte if the
      saving demanded is the same. */
  lemma DirectoriesComeBack(p0: Packer, p: Packer, blocks: seq<seq<byte>>, b: nat, image: seq<byte>, base: nat)
    requires Alike(p0, p) && WellCut(blocks) && b <= |blocks|
    requires Holds(image, base, Rewritten(p0, p, blocks, LastRead(blocks, b), SavedDirs(blocks, b).cache))
    ensures var out := Rewritten(p0, p, blocks, LastRead(blocks, b), SavedDirs(blocks, b).cache);
            && (Decodes(p.codec, image, base, base + |out|, p0, blocks, |blocks|) <==> TailIsSaved(blocks, b))
            && (p0 == p ==> (out == EncodeBlocks(p, blocks) <==> TailIsSaved(blocks, b)))
  {
    hide Rewritten, Decodes, EncodeBlocks, TailIsSaved, SavedDirs;
    var k, tail := LastRead(blocks, b), SavedDirs(blocks, b).cache;
    SavedTail(blocks, b);
    if TailIsSaved(blocks, b) {
      RewrittenDecodes(p0, p, blocks, k, image, base);
      LastBlockFound(p.codec, image, base, base + |Rewritten(p0, p, blocks, k, tail)|, p0, blocks, k);
      RewrittenSame(p, blocks, k);
    } else {
      LastBlockLost(p0, p, blocks, image, base);
      WrittenShorter(p0, p, blocks);
    }
  }

  lemma LastBlockFound(c: Codec, image: seq<byte>, base: nat, end: nat, p0: Packer, blocks: seq<seq<byte>>, k: nat)
    requires Decodes(c, image, base, end, p0, blocks, k) && k >= |blocks| - 1
    ensures Decodes(c, image, base, end, p0, blocks, |blocks|)
  {
    hide ReadBlocks, EncodeBlocks, Rising;
  }

  lemma LastBlockLost(p0: Packer, p: Packer, blocks: seq<seq<byte>>, image: seq<byte>, base: nat)
    requires Alike(p0, p) && WellCut(blocks) && blocks != [] &&
             Holds(image, base, Rewritten(p0, p, blocks, |blocks| - 1, []))
    ensures !Decodes(p.codec, image, base, base + |Rewritten(p0, p, blocks, |blocks| - 1, [])|, p0, blocks, |blocks|)
  {
    hide ReadBlocks, EncodeBlocks, Rising, Lossless;
    var n := |blocks| - 1;
    var front := blocks[..n];
    assert front[..n] == front && front[n..] == [];
    WellCutRest(blocks, n);
    RewrittenDecodes(p0, p, front, n, image, base);
  }

  lemma WrittenShorter(p0: Packer, p: Packer, blocks: seq<seq<byte>>)
    requires blocks != []
    ensures p0 == p ==> |Rewritten(p0, p, blocks, |blocks| - 1, [])| < |EncodeBlocks(p, blocks)|
  {
    EncodeNothing(p);
    assert Chop([]) == [];
  }

  lemma PositionsOrdered(p: Packer, blocks: seq<seq<byte>>, j: nat, k: nat)
    requires j <= k <= |blocks|
    ensures Position(p, blocks, j) <= Position(p, blocks, k)
  {
    hide EncodeBlocks;
    if j < k {
      PositionsIncrease(p, blocks, j, k);
    }
  }

  lemma {:induction false} PrefixTable(p: Packer, blocks: seq<seq<byte>>, k: nat)
    requires k <= |blocks|
    ensures Position(p, blocks, k) <= |EncodeBlocks(p, blocks)|
    ensures EncodeBlocks(p, blocks)[..Position(p, blocks, k)] == EncodeBlocks(p, blocks[..k])
    decreases |blocks| - k
  {
    assert blocks[..|blocks|] == blocks;
    if k < |blocks| {
      PrefixTable(p, blocks, k + 1);
      PositionNext(p, blocks, k);
      var s, n := EncodeBlocks(p, blocks), Position(p, blocks, k);
      assert s[..Position(p, blocks, k + 1)][..n] == s[..n];
    }
  }
}
