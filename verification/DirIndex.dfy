/** The directory index: write_dir gives each index entry the position of the metadata
    block that holds it while blocks are being flushed; lookup scans the index for the
    last entry not beyond the name and reads the directory from there. */
module DirIndex {
  import opened Bytes
  import opened Compressor
  import opened Metadata
  import opened MetaCursor
  import opened Directory
  import opened Names

  const INDEX_ENTRY: nat := 12
  const LDIR_INODE: nat := 40

  datatype IndexEntry = IndexEntry(pos: nat, startBlock: nat, name: seq<byte>)

  // ---------- write_dir ----------

  ghost predicate Ascending(marks: seq<nat>)
  {
    forall i, j :: 0 <= i < j < |marks| ==> marks[i] <= marks[j]
  }

  /** The block, counted from the one the directory begins in, that holds position m. */
  function BlockOf(offset: nat, m: nat): nat
  {
    (offset + m) / BLOCK
  }

  /** starts[..n] hold the positions of the blocks that contain the marks. */
  ghost predicate Placed(p: Packer, blocks: seq<seq<byte>>, first: nat, offset: nat, marks: seq<nat>, starts: seq<nat>)
  {
    |starts| <= |marks|
    && forall i :: 0 <= i < |starts| ==>
         first + BlockOf(offset, marks[i]) <= |blocks|
         && starts[i] == Position(p, blocks, first + BlockOf(offset, marks[i]))
  }

  lemma PlacedLonger(p: Packer, blocks: seq<seq<byte>>, longer: seq<seq<byte>>, first: nat, offset: nat,
                     marks: seq<nat>, starts: seq<nat>)
    requires blocks <= longer && Placed(p, blocks, first, offset, marks, starts)
    ensures Placed(p, longer, first, offset, marks, starts)
  {
    hide EncodeBlocks;
    forall i | 0 <= i < |starts|
      ensures starts[i] == Position(p, longer, first + BlockOf(offset, marks[i]))
    {
      var k := first + BlockOf(offset, marks[i]);
      assert longer[..k] == blocks[..k];
    }
  }

  /** write_dir: append the directory, then alternately give index entries that fall in
      the current block its position and flush that block. */
  method WriteDir(w: Writer, data: seq<byte>, marks: seq<nat>) returns (r: Ref, starts: seq<nat>)
    requires w.Valid() && |w.cache| < BLOCK && Ascending(marks)
    requires forall i :: 0 <= i < |marks| ==> marks[i] < |data|
    modifies w
    ensures w.Valid() && |w.cache| < BLOCK
    ensures w.meta == Flush(Meta(old(w.meta).blocks, old(w.cache) + data))
    ensures r == RefOf(w.packer, old(w.meta)) && |starts| == |marks|
    ensures Placed(w.packer, w.meta.blocks, |old(w.meta).blocks|, r.offset, marks, starts)
  {
    hide EncodeBlock, EncodeBlocks;
    var offset := |w.cache|;
    r := Ref(|w.table|, offset);
    ghost var first, total := |w.meta.blocks|, offset + |data|;
    w.cache := w.cache + data;
    w.meta := Meta(w.meta.blocks, w.cache);
    ghost var begun := w.meta;
    starts := [];
    var limit, i := BLOCK - offset, 0;
    ghost var done := 0;
    while true
      invariant w.Valid() && Flush(w.meta) == Flush(begun)
      invariant |w.meta.blocks| == first + done && |w.cache| == total - BLOCK * done
      invariant limit == BLOCK * (done + 1) - offset
      invariant 0 <= i == |starts| <= |marks|
      invariant Placed(w.packer, w.meta.blocks, first, offset, marks, starts)
      invariant i < |marks| ==> BLOCK * done <= offset + marks[i]
      decreases |w.cache|
    {
      while i < |marks| && marks[i] < limit
        invariant 0 <= i == |starts| <= |marks|
        invariant Placed(w.packer, w.meta.blocks, first, offset, marks, starts)
        invariant i < |marks| ==> BLOCK * done <= offset + marks[i]
      {
        assert BlockOf(offset, marks[i]) == done;
        assert w.meta.blocks[..first + done] == w.meta.blocks;
        starts := starts + [|w.table|];
        i := i + 1;
      }
      limit := limit + BLOCK;
      if |w.cache| < BLOCK {
        break;
      }
      ghost var b, before := w.cache[..BLOCK], w.meta.blocks;
      w.FlushBlock(BLOCK);
      EncodeSnoc(w.packer, before, b);
      w.meta := Meta(before + [b], w.cache);
      PlacedLonger(w.packer, before, w.meta.blocks, first, offset, marks, starts);
      done := done + 1;
    }
  }

  lemma EncodeSnoc(p: Packer, blocks: seq<seq<byte>>, b: seq<byte>)
    ensures EncodeBlocks(p, blocks + [b]) == EncodeBlocks(p, blocks) + EncodeBlock(p, b)
  {
    assert (blocks + [b])[..|blocks|] == blocks;
  }

  // ---------- a directory lying in a finished table ----------

  /** The runs stand at stream position `at`; each index entry names a run and the
      block that holds it. */
  ghost predicate Stored(p: Packer, blocks: seq<seq<byte>>, at: nat, runs: seq<Run>, index: seq<IndexEntry>)
  {
    && WellCut(blocks) && RunsOk(runs) && Holds(Flatten(blocks), at, EncodeRuns(runs))
    && forall k :: 0 <= k < |index| ==> EntryRight(p, blocks, at, runs, index[k])
  }

  ghost predicate EntryRight(p: Packer, blocks: seq<seq<byte>>, at: nat, runs: seq<Run>, x: IndexEntry)
  {
    && MarksSomeRun(runs, Mark(x.pos, x.name))
    && (at + x.pos) / BLOCK <= |blocks| && x.startBlock == Position(p, blocks, (at + x.pos) / BLOCK)
  }

  function Positions(index: seq<Mark>): (marks: seq<nat>)
    ensures |marks| == |index| && forall i :: 0 <= i < |marks| ==> marks[i] == index[i].pos
  {
    if index == [] then [] else Positions(index[..|index| - 1]) + [index[|index| - 1].pos]
  }

  function WithStarts(index: seq<Mark>, starts: seq<nat>): (r: seq<IndexEntry>)
    requires |starts| == |index|
    ensures |r| == |index|
    ensures forall i :: 0 <= i < |r| ==> r[i] == IndexEntry(index[i].pos, starts[i], index[i].name)
  {
    if index == [] then [] else
      var n := |index| - 1;
      WithStarts(index[..n], starts[..n]) + [IndexEntry(index[n].pos, starts[n], index[n].name)]
  }

  /** write_dir's results stay right in every table that is later closed around them:
      each index entry names a header boundary and the block containing it. */
  lemma WrittenIsStored(p: Packer, before: Meta, after: Meta, blocks: seq<seq<byte>>, es: seq<DirEntry>,
                        starts: seq<nat>)
    requires AllStorable(es) && Full(before.blocks) && |before.cache| < BLOCK
    requires |starts| == |Build(es).index| && after == Flush(Meta(before.blocks, before.cache + EncodeDir(es)))
    requires Placed(p, after.blocks, |before.blocks|, |before.cache|, Positions(Build(es).index), starts)
    requires WellCut(blocks) && after.blocks <= blocks && Stream(after) <= Flatten(blocks)
    ensures Stored(p, blocks, |Stream(before)|, Build(es).runs, WithStarts(Build(es).index, starts))
  {
    hide EncodeBlocks, EncodeRuns, Build, Flatten, MarksSomeRun, Flush, Placed;
    var runs, marks := Build(es).runs, Positions(Build(es).index);
    BuildRunsOk(es);
    var data, at := EncodeRuns(runs), |Stream(before)|;
    FlattenFull(before.blocks);
    FlushStream(Meta(before.blocks, before.cache + data));
    assert Stream(after) == Flatten(before.blocks) + (before.cache + data) == Stream(before) + data;
    assert Flatten(blocks)[at..at + |data|] == Stream(after)[at..];
    BuildIndexOk(es);
    var index := WithStarts(Build(es).index, starts);
    forall k | 0 <= k < |index|
      ensures EntryRight(p, blocks, at, runs, index[k])
    {
      StartRight(p, before, after.blocks, blocks, marks, starts, k);
      assert MarksSomeRun(runs, Build(es).index[k]);
      assert Mark(index[k].pos, index[k].name) == Build(es).index[k];
    }
  }

  lemma StartRight(p: Packer, before: Meta, short: seq<seq<byte>>, blocks: seq<seq<byte>>, marks: seq<nat>,
                   starts: seq<nat>, k: nat)
    requires Full(before.blocks) && |before.cache| < BLOCK && k < |starts| == |marks|
    requires Placed(p, short, |before.blocks|, |before.cache|, marks, starts) && short <= blocks
    ensures var q := |Stream(before)| + marks[k]; q / BLOCK <= |blocks| && starts[k] == Position(p, blocks, q / BLOCK)
  {
    hide EncodeBlocks;
    PlacedLonger(p, short, blocks, |before.blocks|, |before.cache|, marks, starts);
    FlattenFull(before.blocks);
    var q := |Stream(before)| + marks[k];
    assert q == BLOCK * |before.blocks| + (|before.cache| + marks[k]);
    assert q / BLOCK == |before.blocks| + BlockOf(|before.cache|, marks[k]);
  }

  // ---------- lookup ----------

  ghost predicate Sorted(es: seq<DirEntry>)
  {
    forall i, j :: 0 <= i < j < |es| ==> Less(es[i].name, es[j].name)
  }

  /** A linear scan of the whole directory. */
  function LinearFind(es: seq<DirEntry>, name: seq<byte>): Option<DirEntry>
  {
    if es == [] then None else if es[0].name == name then Some(es[0]) else LinearFind(es[1..], name)
  }

  lemma {:induction false} LinearFindSkips(es: seq<DirEntry>, k: nat, name: seq<byte>)
    requires k <= |es| && forall i :: 0 <= i < k ==> es[i].name != name
    ensures LinearFind(es, name) == LinearFind(es[k..], name)
    decreases k
  {
    if k == 0 {
      assert es[0..] == es;
    } else {
      LinearFindSkips(es[1..], k - 1, name);
      assert es[1..][k - 1..] == es[k..];
    }
  }

  /** The first byte as the comparison sees it: the directory's byte is a plain char,
      which may be signed. */
  function FirstChar(s: seq<byte>, signed: bool): int
  {
    if s == [] then 0 else
      var b: int := s[0];
      if signed && b >= 128 then b - 256 else b
  }

  /** Once an entry begins with a greater byte, nothing further can have the name. */
  lemma FirstByteStops(es: seq<DirEntry>, k: nat, name: seq<byte>, signed: bool)
    requires Sorted(es) && k < |es| && FirstChar(name, false) < FirstChar(es[k].name, signed)
    ensures forall i :: k <= i < |es| ==> es[i].name != name
  {
    forall i | k <= i < |es|
      ensures es[i].name != name
    {
      if k < i {
        assert Less(es[k].name, es[i].name);
      }
    }
  }

  /** An index entry not beyond the name, and the place it names. */
  ghost predicate Gives(x: IndexEntry, tableStart: nat, name: seq<byte>, length: nat, block: nat)
  {
    length == x.pos && block == tableStart + x.startBlock && !Less(name, x.name)
  }

  ghost predicate ChosenByName(index: seq<IndexEntry>, tableStart: nat, name: seq<byte>, length: nat, block: nat)
  {
    exists k :: 0 <= k < |index| && Gives(index[k], tableStart, name, length, block)
  }

  // ---------- the bytes of the index ----------

  /** struct squashfs_dir_index with its name. */
  function EncodeIndexEntry(x: IndexEntry): (s: seq<byte>)
    ensures |s| == INDEX_ENTRY + |x.name|
  {
    PutLe(x.pos, 4) + PutLe(x.startBlock, 4) + PutLe((|x.name| - 1) % 0x1_0000_0000, 4) + x.name
  }

  function EncodeIndex(index: seq<IndexEntry>): seq<byte>
  {
    if index == [] then [] else EncodeIndex(index[..|index| - 1]) + EncodeIndexEntry(index[|index| - 1])
  }

  ghost predicate IndexEntryFits(x: IndexEntry)
  {
    x.pos < 0x1_0000_0000 && x.startBlock < 0x1_0000_0000 && 0 < |x.name| <= NAME_LEN
  }

  ghost predicate IndexFits(index: seq<IndexEntry>)
  {
    forall k :: 0 <= k < |index| ==> IndexEntryFits(index[k])
  }

  lemma {:induction false} IndexEntryAt(index: seq<IndexEntry>, k: nat)
    requires k < |index|
    ensures Holds(EncodeIndex(index), |EncodeIndex(index[..k])|, EncodeIndexEntry(index[k]))
    ensures |EncodeIndex(index[..k + 1])| == |EncodeIndex(index[..k])| + |EncodeIndexEntry(index[k])|
    decreases |index|
  {
    hide EncodeIndexEntry;
    var n := |index| - 1;
    TakeTake(index, k, k + 1);
    if k < n {
      IndexEntryAt(index[..n], k);
      TakeTake(index, k, n);
      var front, last := EncodeIndex(index[..n]), EncodeIndexEntry(index[n]);
      HoldsGrow(front, last, |EncodeIndex(index[..k])|, EncodeIndexEntry(index[k]));
    }
  }

  lemma IndexFields(x: IndexEntry)
    requires IndexEntryFits(x)
    ensures var s := EncodeIndexEntry(x);
            && GetLe(s[..4]) == x.pos && GetLe(s[4..8]) == x.startBlock && GetLe(s[8..12]) + 1 == |x.name|
            && s[INDEX_ENTRY..] == x.name
  {
    hide PutLe, GetLe;
    Spans();
    LeRoundTrip(x.pos, 4);
    LeRoundTrip(x.startBlock, 4);
    LeRoundTrip(|x.name| - 1, 4);
    var a, b, c := PutLe(x.pos, 4), PutLe(x.startBlock, 4), PutLe(|x.name| - 1, 4);
    var s := EncodeIndexEntry(x);
    assert s == a + b + c + x.name;
    assert s[..4] == a && s[4..8] == b && s[8..12] == c && s[INDEX_ENTRY..] == x.name;
  }

  /** The table that holds the index: its blocks, where it lies in the image, and where in the
      stream the index stands. */
  datatype IndexPlace = IndexPlace(p: Packer, blocks: seq<seq<byte>>, base: nat, at: nat)

  ghost predicate IndexAt(image: seq<byte>, i: IndexPlace, index: seq<IndexEntry>)
  {
    && Lossless(i.p.codec) && WellCut(i.blocks) && Holds(image, i.base, EncodeBlocks(i.p, i.blocks))
    && IndexFits(index) && Holds(Flatten(i.blocks), i.at, EncodeIndex(index)) && i.at / BLOCK <= |i.blocks|
  }

  /** One entry, in two reads. */
  method ReadIndexEntry(c: Codec, image: seq<byte>, cur0: Ref, ghost i: IndexPlace, ghost q: nat, ghost x: IndexEntry)
    returns (r: IndexEntry, cur: Ref)
    requires Lossless(i.p.codec) && c == i.p.codec && WellCut(i.blocks)
    requires Holds(image, i.base, EncodeBlocks(i.p, i.blocks))
    requires IndexEntryFits(x) && Holds(Flatten(i.blocks), q, EncodeIndexEntry(x))
    requires q / BLOCK <= |i.blocks| && cur0 == CursorAt(i.p, i.blocks, i.base, q)
    ensures r == x
    ensures var end := q + |EncodeIndexEntry(x)|;
            end / BLOCK <= |i.blocks| && cur == CursorAt(i.p, i.blocks, i.base, end)
  {
    hide EncodeBlocks, Flatten, ReadMeta, EncodeIndexEntry, GetLe;
    ghost var s, enc := Flatten(i.blocks), EncodeIndexEntry(x);
    IndexFields(x);
    InStream(i.blocks, q + INDEX_ENTRY);
    ReadMetaBack(i.p, i.blocks, image, i.base, q, INDEX_ENTRY);
    var raw := ReadMeta(c, image, cur0, INDEX_ENTRY);
    HoldsSlice(s, q, enc, 0, INDEX_ENTRY);
    var head := raw.value.0;
    assert head == enc[..INDEX_ENTRY];
    assert head[..4] == enc[..4] && head[4..8] == enc[4..8] && head[8..12] == enc[8..12];
    var size := GetLe(head[8..12]) + 1;
    InStream(i.blocks, q + INDEX_ENTRY + size);
    ReadMetaBack(i.p, i.blocks, image, i.base, q + INDEX_ENTRY, size);
    var text := ReadMeta(c, image, raw.value.1, size);
    HoldsSlice(s, q, enc, INDEX_ENTRY, size);
    assert enc[INDEX_ENTRY..INDEX_ENTRY + size] == enc[INDEX_ENTRY..];
    r, cur := IndexEntry(GetLe(head[..4]), GetLe(head[4..8]), text.value.0), text.value.1;
  }

  /** get_dir_index_using_name: reads the index entry by entry until one lies behind the name, or a
      read fails; what has been read until then is as good. */
  method GetDirIndexUsingName(c: Codec, image: seq<byte>, index0: Ref, count: nat, fails: nat -> bool, tableStart: nat,
                              start: Ref, name: seq<byte>, ghost i: IndexPlace, ghost index: seq<IndexEntry>)
    returns (length: nat, cur: Ref)
    requires IndexAt(image, i, index) && c == i.p.codec && count == |index|
    requires index0 == CursorAt(i.p, i.blocks, i.base, i.at)
    ensures cur.offset == (length + start.offset) % BLOCK
    ensures (length == 0 && cur.block == start.block) || ChosenByName(index, tableStart, name, length, cur.block)
  {
    hide EncodeBlocks, Flatten, EncodeIndex, EncodeIndexEntry;
    var block: nat, at := start.block, index0;
    ghost var q := i.at;
    EncodeIndexNone(index);
    length := 0;
    for k := 0 to count
      invariant (length == 0 && block == start.block) || ChosenByName(index, tableStart, name, length, block)
      invariant q == i.at + |EncodeIndex(index[..k])| && q / BLOCK <= |i.blocks|
      invariant at == CursorAt(i.p, i.blocks, i.base, q)
    {
      if fails(k) {
        break;
      }
      IndexEntryAt(index, k);
      HoldsTrans(Flatten(i.blocks), i.at, EncodeIndex(index), |EncodeIndex(index[..k])|, EncodeIndexEntry(index[k]));
      var x;
      x, at := ReadIndexEntry(c, image, at, i, q, index[k]);
      if Less(name, x.name) {
        break;
      }
      length := x.pos;
      block := tableStart + x.startBlock;
      assert Gives(index[k], tableStart, name, length, block);
      q := q + |EncodeIndexEntry(index[k])|;
    }
    cur := Ref(block, (length + start.offset) % BLOCK);
  }

  lemma EncodeIndexNone(index: seq<IndexEntry>)
    ensures EncodeIndex(index[..0]) == []
  {
  }

  /** Everything before the run that an index entry names is smaller than the name. */
  lemma BeforeMarkSmaller(runs: seq<Run>, m: Mark, j: nat, name: seq<byte>)
    requires MarksRun(runs, m, j) && Sorted(EntriesOf(runs)) && !Less(name, m.name)
    ensures forall e :: e in EntriesOf(runs[..j]) ==> e.name != name
  {
    hide EntriesOf;
    var es, front := EntriesOf(runs), EntriesOf(runs[..j]);
    EntriesSplit(runs, j);
    assert runs[j..] == [runs[j]] + runs[j + 1..];
    EntriesOfCons(runs[j], runs[j + 1..]);
    forall i | 0 <= i < |front|
      ensures front[i].name != name
    {
      assert es[i] == front[i] && es[|front|] == runs[j].entries[0];
      assert Less(es[i].name, m.name);
    }
  }

  lemma {:induction false} EntriesSplit(runs: seq<Run>, j: nat)
    requires j <= |runs|
    ensures EntriesOf(runs) == EntriesOf(runs[..j]) + EntriesOf(runs[j..])
    decreases |runs| - j
  {
    hide EntriesOf;
    if j == |runs| {
      assert runs[..j] == runs && runs[j..] == [];
      EntriesOfNone();
    } else {
      EntriesSplit(runs, j + 1);
      TakeNext(runs, j);
      EntriesOfSnoc(runs[..j], runs[j]);
      assert runs[j..] == [runs[j]] + runs[j + 1..];
      EntriesOfCons(runs[j], runs[j + 1..]);
    }
  }

  lemma FindFromRun(runs: seq<Run>, j: nat, name: seq<byte>)
    requires j <= |runs| && forall e :: e in EntriesOf(runs[..j]) ==> e.name != name
    ensures LinearFind(EntriesOf(runs), name) == LinearFind(EntriesOf(runs[j..]), name)
  {
    EntriesSplit(runs, j);
    var front := EntriesOf(runs[..j]);
    LinearFindSkips(EntriesOf(runs), |front|, name);
    assert EntriesOf(runs)[|front|..] == EntriesOf(runs[j..]);
  }

  lemma {:induction false} SortedSuffix(es: seq<DirEntry>, k: nat)
    requires Sorted(es) && k <= |es|
    ensures Sorted(es[k..])
  {
  }

  /** Read one directory entry at stream position q and step the cursor over it. */
  method ReadEntry(c: Codec, image: seq<byte>, cur0: Ref, block: nat, number: nat, ghost p: Packer,
                   ghost blocks: seq<seq<byte>>, ghost base: nat, ghost q: nat, ghost run: Run, ghost e: DirEntry)
    returns (r: DirEntry, used: nat, cur: Ref)
    requires Lossless(p.codec) && c == p.codec && WellCut(blocks) && Holds(image, base, EncodeBlocks(p, blocks))
    requires EntryOk(run, e) && block == run.block && number == run.number
    requires Holds(Flatten(blocks), q, EncodeEntry(run.number, e))
    requires q / BLOCK <= |blocks| && cur0 == CursorAt(p, blocks, base, q)
    ensures r == e && used == ENTRY + |e.name|
    ensures (q + used) / BLOCK <= |blocks| && cur == CursorAt(p, blocks, base, q + used)
  {
    hide EncodeBlocks, Flatten, ReadMeta, EncodeEntry, GetLe, GetS16;
    ghost var s := Flatten(blocks);
    InStream(blocks, q + ENTRY);
    ReadMetaBack(p, blocks, image, base, q, ENTRY);
    var raw := ReadMeta(c, image, cur0, ENTRY);
    EntryBack(s, q, run, e);
    assert raw.value.0[6..8] == s[q + 6..q + 8];
    var size := GetLe(raw.value.0[6..8]) + 1;
    InStream(blocks, q + ENTRY + size);
    ReadMetaBack(p, blocks, image, base, q + ENTRY, size);
    var text := ReadMeta(c, image, raw.value.1, size);
    cur := text.value.1;
    used := ENTRY + size;
    var bytes := raw.value.0 + text.value.0;
    assert bytes == s[q..q + used] == EncodeEntry(run.number, e);
    assert Holds(bytes, 0, EncodeEntry(run.number, e));
    EntryBack(bytes, 0, run, e);
    var decoded := DecodeEntry(bytes, 0, block, number);
    r := decoded.value.0;
  }

  /** Where the index sends the lookup: the cursor stands at the beginning of a run, and
      no entry before that run has the name. */
  ghost predicate StartsAtRun(p: Packer, blocks: seq<seq<byte>>, base: nat, at: nat, runs: seq<Run>, name: seq<byte>,
                              length: nat, cur: Ref, j: nat)
  {
    && j <= |runs| && length == Size(runs[..j])
    && (at + length) / BLOCK <= |blocks| &&
      cur == Ref(base + Position(p, blocks, (at + length) / BLOCK), (at + length) % BLOCK)
    && forall e :: e in EntriesOf(runs[..j]) ==> e.name != name
  }

  lemma IndexStartsAtRun(p: Packer, blocks: seq<seq<byte>>, base: nat, at: nat, runs: seq<Run>, index: seq<IndexEntry>,
                         name: seq<byte>, start: Ref, length: nat, cur: Ref)
    returns (j: nat)
    requires Stored(p, blocks, at, runs, index) && Sorted(EntriesOf(runs))
    requires at / BLOCK <= |blocks| && start == Ref(base + Position(p, blocks, at / BLOCK), at % BLOCK)
    requires cur.offset == (length + start.offset) % BLOCK
    requires (length == 0 && cur.block == start.block) || ChosenByName(index, base, name, length, cur.block)
    ensures StartsAtRun(p, blocks, base, at, runs, name, length, cur, j)
  {
    hide EncodeBlocks, Size, EntriesOf, EncodeRuns, Flatten;
    OffsetMod(at, length);
    if ChosenByName(index, base, name, length, cur.block) {
      var k :| 0 <= k < |index| && Gives(index[k], base, name, length, cur.block);
      var m := Mark(index[k].pos, index[k].name);
      assert EntryRight(p, blocks, at, runs, index[k]);
      j :| MarksRun(runs, m, j);
      BeforeMarkSmaller(runs, m, j, name);
    } else {
      j := 0;
      assert runs[..0] == [];
      EmptySize();
      EntriesOfNone();
    }
  }

  lemma OffsetMod(at: nat, length: nat)
    ensures (length + at % BLOCK) % BLOCK == (at + length) % BLOCK
  {
  }

  lemma NothingFound(es: seq<DirEntry>, name: seq<byte>)
    requires forall i :: 0 <= i < |es| ==> es[i].name != name
    ensures LinearFind(es, name) == None
  {
    LinearFindSkips(es, |es|, name);
  }

  lemma LongNameAbsent(runs: seq<Run>, name: seq<byte>)
    requires RunsOk(runs) && |name| > NAME_LEN
    ensures LinearFind(EntriesOf(runs), name) == None
  {
    EntriesShort(runs);
    NothingFound(EntriesOf(runs), name);
  }

  lemma {:induction false} EntriesShort(runs: seq<Run>)
    requires RunsOk(runs)
    ensures forall i :: 0 <= i < |EntriesOf(runs)| ==> |EntriesOf(runs)[i].name| <= NAME_LEN
    decreases |runs|
  {
    if runs != [] {
      var n := |runs| - 1;
      EntriesShort(runs[..n]);
      assert forall i :: 0 <= i < |runs[n].entries| ==> EntryOk(runs[n], runs[n].entries[i]);
    }
  }

  lemma SizeStrict(runs: seq<Run>, j: nat)
    requires j <= |runs|
    ensures j < |runs| <==> Size(runs[..j]) < Size(runs)
  {
    hide EntriesSize;
    if j < |runs| {
      TakeNext(runs, j);
      SizeSnoc(runs[..j], runs[j]);
      SizeMonotone(runs, j + 1);
    } else {
      assert runs[..j] == runs;
    }
  }

  lemma RunAt(p: Packer, blocks: seq<seq<byte>>, at: nat, runs: seq<Run>, j: nat)
    requires RunsOk(runs) && j < |runs| && Holds(Flatten(blocks), at, EncodeRuns(runs))
    ensures Holds(Flatten(blocks), at + Size(runs[..j]), EncodeRun(runs[j]))
  {
    hide EncodeRuns, EncodeRun, Size, Flatten;
    RunInRuns(runs, j);
    HoldsTrans(Flatten(blocks), at, EncodeRuns(runs), Size(runs[..j]), EncodeRun(runs[j]));
  }

  lemma SortedFromRun(runs: seq<Run>, j: nat)
    requires j <= |runs| && Sorted(EntriesOf(runs))
    ensures Sorted(EntriesOf(runs[j..]))
  {
    hide EntriesOf;
    EntriesSplit(runs, j);
    var front, es := EntriesOf(runs[..j]), EntriesOf(runs);
    assert es[|front|..] == EntriesOf(runs[j..]);
    SortedSuffix(es, |front|);
  }

  /** One header and its entries. `q` is the header's stream position and `runs` the runs
      from there on. */
  method LookupInRun(c: Codec, image: seq<byte>, cur0: Ref, name: seq<byte>, signed: bool,
                     ghost p: Packer, ghost blocks: seq<seq<byte>>, ghost base: nat, ghost q: nat, ghost runs: seq<Run>)
    returns (found: Option<DirEntry>, stop: bool, used: nat, cur: Ref)
    requires Lossless(p.codec) && c == p.codec && WellCut(blocks) && Holds(image, base, EncodeBlocks(p, blocks))
    requires runs != [] && RunOk(runs[0]) && Holds(Flatten(blocks), q, EncodeRun(runs[0]))
    requires q / BLOCK <= |blocks| && cur0 == CursorAt(p, blocks, base, q)
    requires Sorted(EntriesOf(runs))
    ensures found.Some? || stop ==> found == LinearFind(EntriesOf(runs), name)
    ensures found.None? && !stop ==>
              && used == HEADER + EntriesSize(runs[0].entries)
              && (q + used) / BLOCK <= |blocks| && cur == CursorAt(p, blocks, base, q + used)
              && LinearFind(EntriesOf(runs), name) == LinearFind(EntriesOf(runs[1..]), name)
  {
    hide EncodeBlocks, Flatten, EntriesOf, EncodeRun, EncodeEntries, EncodeEntry, ReadMeta, GetLe, LinearFind,
      EntriesSize, DecodeEntries;
    ghost var run, s, all := runs[0], Flatten(blocks), EntriesOf(runs);
    ghost var es := run.entries;
    assert runs == [run] + runs[1..];
    EntriesOfCons(run, runs[1..]);
    RunBack(s, q, run);
    InStream(blocks, q + HEADER);
    ReadMetaBack(p, blocks, image, base, q, HEADER);
    var header := ReadMeta(c, image, cur0, HEADER).value;
    SliceSlice(s, q, HEADER, 0, 4);
    SliceSlice(s, q, HEADER, 4, 8);
    SliceSlice(s, q, HEADER, 8, 12);
    var left: nat, block, number := GetLe(header.0[0..4]) + 1, GetLe(header.0[4..8]), GetLe(header.0[8..12]);
    cur, used, stop, found := header.1, HEADER, false, None;
    ghost var k := 0;
    assert es[..0] == [];
    EntriesSizeNone();
    while left > 0
      invariant 0 <= k && k + left == |es| && used == HEADER + EntriesSize(es[..k])
      invariant (q + used) / BLOCK <= |blocks| && cur == CursorAt(p, blocks, base, q + used)
      invariant forall i :: 0 <= i < k ==> es[i].name != name
    {
      EntryInRun(number, es, k);
      HoldsTrans(s, q + HEADER, EncodeEntries(number, es), EntriesSize(es[..k]), EncodeEntry(number, es[k]));
      var e, n, next := ReadEntry(c, image, cur, block, number, p, blocks, base, q + used, run, es[k]);
      TakeNext(es, k);
      EntriesSizeSnoc(es[..k], es[k]);
      used, cur := used + n, next;
      assert all[k] == es[k];
      if FirstChar(name, false) < FirstChar(e.name, signed) {
        FirstByteStops(all, k, name, signed);
        NothingFound(all, name);
        stop := true;
        return;
      }
      if name == e.name {
        FoundAt(all, k, name);
        found := Some(e);
        return;
      }
      k, left := k + 1, left - 1;
    }
    assert es[..|es|] == es;
    LinearFindSkips(all, |es|, name);
    assert all[|es|..] == EntriesOf(runs[1..]);
  }

  lemma FoundAt(es: seq<DirEntry>, k: nat, name: seq<byte>)
    requires k < |es| && es[k].name == name && forall i :: 0 <= i < k ==> es[i].name != name
    ensures LinearFind(es, name) == Some(es[k])
  {
    LinearFindSkips(es, k, name);
  }

  /** squashfs_lookup: from the place the index gives, run by run and entry by entry,
      until the name is found or a greater first byte is met. For every sorted directory
      the answer is that of a linear scan of the whole directory. */
  method SquashfsLookup(c: Codec, image: seq<byte>, tableStart: nat, start: Ref, fileSize: nat, index0: Ref, count: nat,
                        fails: nat -> bool, name: seq<byte>, signed: bool, ghost p: Packer,
                        ghost blocks: seq<seq<byte>>, ghost at: nat, ghost runs: seq<Run>, ghost i: IndexPlace,
                        ghost index: seq<IndexEntry>)
    returns (r: Option<DirEntry>)
    requires Lossless(p.codec) && c == p.codec && Holds(image, tableStart, EncodeBlocks(p, blocks))
    requires Stored(p, blocks, at, runs, index) && Sorted(EntriesOf(runs))
    requires at / BLOCK <= |blocks| && start == Ref(tableStart + Position(p, blocks, at / BLOCK), at % BLOCK)
    requires fileSize == Size(runs) + 3
    requires IndexAt(image, i, index) && i.p.codec == c && count == |index|
    requires index0 == CursorAt(i.p, i.blocks, i.base, i.at)
    ensures r == LinearFind(EntriesOf(runs), name)
  {
    hide EncodeBlocks, Size, EntriesOf, EncodeRuns, EncodeRun, Flatten, ReadMeta, MarksSomeRun, GetLe, EntriesSize,
      LinearFind, EncodeEntries, IndexAt, Lossless, Sorted, EntryRight;
    if |name| > NAME_LEN {
      LongNameAbsent(runs, name);
      return None;
    }
    ghost var s, base := Flatten(blocks), tableStart;
    var length, cur := GetDirIndexUsingName(c, image, index0, count, fails, tableStart, start, name, i, index);
    ghost var j := IndexStartsAtRun(p, blocks, tableStart, at, runs, index, name, start, length, cur);
    FindFromRun(runs, j, name);
    EncodeRunsSize(runs);
    SizeStrict(runs, j);
    length := length + 3;
    while length < fileSize
      invariant j <= |runs| && length == Size(runs[..j]) + 3
      invariant (at + Size(runs[..j])) / BLOCK <= |blocks|
      invariant j < |runs| ==> cur == CursorAt(p, blocks, base, at + Size(runs[..j]))
      invariant LinearFind(EntriesOf(runs), name) == LinearFind(EntriesOf(runs[j..]), name)
      decreases |runs| - j
    {
      SizeStrict(runs, j);
      RunAt(p, blocks, at, runs, j);
      SortedFromRun(runs, j);
      var found, stop, used, next :=
        LookupInRun(c, image, cur, name, signed, p, blocks, base, at + Size(runs[..j]), runs[j..]);
      if found.Some? {
        return found;
      }
      if stop {
        return None;
      }
      TakeNext(runs, j);
      SizeSnoc(runs[..j], runs[j]);
      assert runs[j..][1..] == runs[j + 1..];
      cur := next;
      j := j + 1;
      length := length + used;
    }
    SizeStrict(runs, j);
    assert runs[j..] == [];
    EntriesOfNone();
    NothingFound([], name);
    r := None;
  }

  // ---------- from entries to a lookup ----------

  lemma {:induction false} GapsAscend(index: seq<Mark>, i: nat, j: nat)
    requires i <= j < |index| && forall k :: 0 <= k < |index| ==> GapOk(index, k)
    ensures index[i].pos <= index[j].pos
    decreases j
  {
    if i < j {
      GapsAscend(index, i, j - 1);
      assert GapOk(index, j);
    }
  }

  lemma MarkInside(runs: seq<Run>, m: Mark)
    requires MarksSomeRun(runs, m)
    ensures m.pos < Size(runs)
  {
    hide Size;
    var j: nat :| MarksRun(runs, m, j);
    SizeStrict(runs, j);
  }

  /** The positions add_dir records are what write_dir needs: ascending and inside the directory. */
  lemma MarksFit(es: seq<DirEntry>)
    requires AllStorable(es)
    ensures var marks := Positions(Build(es).index);
            Ascending(marks) && |EncodeDir(es)| == Size(Build(es).runs) &&
              forall i :: 0 <= i < |marks| ==> marks[i] < |EncodeDir(es)|
  {
    hide Build, Size, EncodeRuns, MarksSomeRun, GapOk;
    var l := Build(es);
    BuildIndexOk(es);
    BuildRunsOk(es);
    RunsNoneEmpty(l.runs);
    EncodeRunsSize(l.runs);
    forall i, j | 0 <= i < j < |l.index|
      ensures l.index[i].pos <= l.index[j].pos
    {
      GapsAscend(l.index, i, j);
    }
    forall i | 0 <= i < |l.index|
      ensures l.index[i].pos < Size(l.runs)
    {
      MarkInside(l.runs, l.index[i]);
    }
  }

  /** The reference write_dir returns leads to the directory: in the kernel it is the place lookup
      starts from, in unsquashfs the hash table resolves it. */
  lemma DirRefLeads(p: Packer, before: Meta, blocks: seq<seq<byte>>, base: nat, t: Table)
    requires Full(before.blocks) && |before.cache| < BLOCK && before.blocks <= blocks && WellCut(blocks)
    ensures var r, at := RefOf(p, before), |Stream(before)|;
            && at / BLOCK <= |blocks| && r == Ref(Position(p, blocks, at / BLOCK), at % BLOCK)
            && (ReadsAs(p, blocks, base, t) && at < |Flatten(blocks)| && |EncodeBlocks(p, blocks)| < 0x1_0000_0000 ==>
                  Resolve(t, base, MkInode(r)) == Some(at))
  {
    hide EncodeBlocks, Resolve, ReadsAs, Flatten;
    RefNames(p, before, blocks);
    var r, at := RefOf(p, before), |Stream(before)|;
    if ReadsAs(p, blocks, base, t) && at < |Flatten(blocks)| && |EncodeBlocks(p, blocks)| < 0x1_0000_0000 {
      ResolveNamed(p, blocks, base, t, r, at);
    }
  }

  lemma NothingToFlush(m: Meta)
    requires |m.cache| < BLOCK
    ensures Flush(m) == m
  {
  }

  ghost predicate Longer(a: Meta, b: Meta)
  {
    a.blocks <= b.blocks && Stream(a) <= Stream(b)
  }

  /** More is stored behind. */
  method StoreMore(w: Writer, more: seq<seq<byte>>)
    requires w.Valid()
    modifies w
    ensures w.Valid() && w.meta == PutAll(old(w.meta), more) && Longer(old(w.meta), w.meta)
  {
    hide Flush, EncodeBlocks, Flatten, Put;
    for i := 0 to |more|
      invariant w.Valid() && w.meta == PutAll(old(w.meta), more[..i]) && Longer(old(w.meta), w.meta)
    {
      PutLonger(w.meta, more[i]);
      TakeTake(more, i, i + 1);
      var _ := w.Append(more[i]);
    }
    TakeAll(more);
  }

  lemma PutLonger(m: Meta, data: seq<byte>)
    ensures Longer(m, Put(m, data))
  {
    hide Flush, Flatten;
    PutStream(m, data);
  }

  lemma PositionBelow(p: Packer, blocks: seq<seq<byte>>, k: nat)
    requires k <= |blocks|
    ensures Position(p, blocks, k) <= |EncodeBlocks(p, blocks)|
  {
    hide EncodeBlocks;
    TakeAll(blocks);
    if k < |blocks| {
      PositionsIncrease(p, blocks, k, |blocks|);
    }
  }

  lemma StoredIndexFits(p: Packer, blocks: seq<seq<byte>>, at: nat, runs: seq<Run>, index: seq<IndexEntry>)
    requires Stored(p, blocks, at, runs, index)
    requires |EncodeBlocks(p, blocks)| < 0x1_0000_0000 && Size(runs) < 0x1_0000_0000
    ensures IndexFits(index)
  {
    hide EncodeBlocks, Size, EncodeRuns, Flatten;
    forall k | 0 <= k < |index|
      ensures IndexEntryFits(index[k])
    {
      var x := index[k];
      assert EntryRight(p, blocks, at, runs, x);
      PositionBelow(p, blocks, (at + x.pos) / BLOCK);
      MarkInside(runs, Mark(x.pos, x.name));
      var j: nat :| MarksRun(runs, Mark(x.pos, x.name), j);
      assert RunOk(runs[j]) && EntryOk(runs[j], runs[j].entries[0]);
    }
  }

  /** Reading the first bytes of an item leads to the cursor behind them. */
  lemma ItemAt(p: Packer, before: Meta, blocks: seq<seq<byte>>, image: seq<byte>, base: nat, head: seq<byte>,
               rest: seq<byte>, at: nat)
    requires Lossless(p.codec) && Full(before.blocks) && Flush(before).blocks <= blocks && WellCut(blocks) && head != []
    requires at == |Stream(before)| && Holds(Flatten(blocks), at, head + rest)
    requires Holds(image, base, EncodeBlocks(p, blocks))
    ensures (at + |head|) / BLOCK <= |blocks| && Holds(Flatten(blocks), at + |head|, rest)
    ensures ReadMeta(p.codec, image, Ref(base + RefOf(p, before).block, RefOf(p, before).offset), |head|) ==
            Some((head, CursorAt(p, blocks, base, at + |head|)))
  {
    hide EncodeBlocks, Flatten, ReadMeta, Flush, Lossless, Stream, WellCut, RefOf, Metadata.Names, Full, CursorAt,
      Holds;
    RefNames(p, before, blocks);
    HoldsBoth(Flatten(blocks), at, head, rest);
    ReadNamed(p, blocks, image, base, RefOf(p, before), at, |head|);
  }

  lemma HoldsBoth(s: seq<byte>, at: nat, head: seq<byte>, rest: seq<byte>)
    requires Holds(s, at, head + rest)
    ensures at + |head| <= |s| && s[at..at + |head|] == head && Holds(s, at + |head|, rest)
  {
    HoldsPart(s, at, [], head, rest) by { assert [] + head + rest == head + rest; }
    HoldsPart(s, at, head, rest, []) by { assert head + rest + [] == head + rest; }
  }

  lemma PrefixHolds(s: seq<byte>, a: seq<byte>, b: seq<byte>)
    requires a + b <= s
    ensures Holds(s, |a|, b)
  {
  }

  /** The blocks of the directory table when `more` has been stored behind the directory. */
  ghost function DirBlocks(m: Meta, es: seq<DirEntry>, more: seq<seq<byte>>): seq<seq<byte>>
    requires AllStorable(es)
  {
    Close(PutAll(Flush(Meta(m.blocks, m.cache + EncodeDir(es))), more))
  }

  /** A directory and its inode with the index are written behind whatever the tables hold, other
      data after them, and the tables are closed. */
  method WriteBoth(w: Writer, wi: Writer, es: seq<DirEntry>, header: seq<byte>, more: seq<seq<byte>>,
                   inodes: seq<seq<byte>>)
    returns (ref: Ref, ino: Ref, index: seq<IndexEntry>, ghost blocks: seq<seq<byte>>, ghost table: seq<seq<byte>>)
    requires w != wi && w.Valid() && wi.Valid() && |w.cache| < BLOCK && AllStorable(es)
    modifies w, wi
    ensures ref == RefOf(w.packer, old(w.meta)) && ino == RefOf(wi.packer, old(wi.meta))
    ensures blocks == DirBlocks(old(w.meta), es, more)
    ensures table == Close(PutAll(Put(old(wi.meta), header + EncodeIndex(index)), inodes))
    ensures w.table == EncodeBlocks(w.packer, blocks) && wi.table == EncodeBlocks(wi.packer, table)
    ensures WellCut(blocks) && WellCut(table) && old(w.meta).blocks <= blocks && Flush(old(wi.meta)).blocks <= table
    ensures Stored(w.packer, blocks, |Stream(old(w.meta))|, Build(es).runs, index)
    ensures Holds(Flatten(table), |Stream(old(wi.meta))|, header + EncodeIndex(index))
  {
    hide Build, EncodeRuns, EncodeBlocks, Flush, Close, Stored, Placed, Flatten, EncodeIndex, WellCut, PutAll;
    ghost var before, first := w.meta, wi.meta;
    MarksFit(es);
    var l := Build(es);
    var starts;
    ref, starts := WriteDir(w, EncodeDir(es), Positions(l.index));
    ghost var after := w.meta;
    NothingToFlush(before);
    FlushStream(Meta(before.blocks, before.cache + EncodeDir(es)));
    index := WithStarts(l.index, starts);
    PutStream(first, header + EncodeIndex(index));
    ino := wi.Append(header + EncodeIndex(index));
    StoreMore(w, more);
    StoreMore(wi, inodes);
    blocks, table := Close(w.meta), Close(wi.meta);
    CloseStream(w.meta);
    CloseStream(wi.meta);
    w.Finish();
    wi.Finish();
    WrittenIsStored(w.packer, before, after, blocks, es, starts);
    PrefixHolds(Flatten(table), Stream(first), header + EncodeIndex(index));
  }

  /** What the inode of a directory tells a reader: where the directory table and the directory
      begin, its size, where its index stands and how many entries that has. */
  datatype DirHandle = DirHandle(tableStart: nat, start: Ref, fileSize: nat, index0: Ref, count: nat)

  /** The tables behind it. */
  datatype DirTables = DirTables(p: Packer, blocks: seq<seq<byte>>, at: nat, i: IndexPlace, index: seq<IndexEntry>)

  /** The image holds the directory of these entries where the handle says, with a right index. */
  ghost predicate Ready(c: Codec, image: seq<byte>, h: DirHandle, es: seq<DirEntry>, g: DirTables)
  {
    && Lossless(c) && c == g.p.codec == g.i.p.codec && Holds(image, h.tableStart, EncodeBlocks(g.p, g.blocks))
    && Stored(g.p, g.blocks, g.at, Build(es).runs, g.index) && g.at / BLOCK <= |g.blocks|
    && h.start == Ref(h.tableStart + Position(g.p, g.blocks, g.at / BLOCK), g.at % BLOCK)
    && h.fileSize == Size(Build(es).runs) + 3 && IndexAt(image, g.i, g.index) && h.count == |g.index|
    && h.index0 == CursorAt(g.i.p, g.i.blocks, g.i.base, g.i.at)
  }

  /** For every directory, whatever the tables hold before and behind it: if the finished directory
      table stays within the width of its positions, the image is ready for lookups. */
  method WriteImage(w: Writer, wi: Writer, es: seq<DirEntry>, header: seq<byte>, more: seq<seq<byte>>,
                    inodes: seq<seq<byte>>, image0: seq<byte>)
    returns (image: seq<byte>, h: DirHandle, ghost g: DirTables)
    requires w != wi && w.Valid() && wi.Valid() && |w.cache| < BLOCK && w.packer.codec == wi.packer.codec
    requires Lossless(w.packer.codec) && AllStorable(es) && |header| == LDIR_INODE
    modifies w, wi
    ensures image == image0 + wi.table + w.table
    ensures w.table == EncodeBlocks(w.packer, DirBlocks(old(w.meta), es, more))
    ensures wi.table == EncodeBlocks(wi.packer, Close(PutAll(Put(old(wi.meta), header + EncodeIndex(g.index)), inodes)))
    ensures |EncodeBlocks(w.packer, DirBlocks(old(w.meta), es, more))| < 0x1_0000_0000 &&
            Size(Build(es).runs) < 0x1_0000_0000 ==>
              Ready(w.packer.codec, image, h, es, g)
  {
    hide Build, Size, EncodeRuns, EncodeBlocks, Flush, Stored, Lossless, Flatten, EncodeIndex, ReadMeta, WellCut,
      IndexFits, Stream, DirBlocks, Put, PutAll, Close;
    ghost var before, first := w.meta, wi.meta;
    var ref, ino, index;
    ghost var blocks, table;
    ref, ino, index, blocks, table := WriteBoth(w, wi, es, header, more, inodes);
    var runs := Build(es).runs;
    image := image0 + wi.table + w.table;
    var start := |image0| + |wi.table|;
    assert Holds(image, start, w.table) && Holds(image, |image0|, wi.table);
    DirRefLeads(w.packer, before, blocks, 0, Table([], map[]));
    ItemAt(wi.packer, first, table, image, |image0|, header, EncodeIndex(index), |Stream(first)|);
    var head := ReadMeta(w.packer.codec, image, Ref(|image0| + ino.block, ino.offset), LDIR_INODE);
    h := DirHandle(start, Ref(start + ref.block, ref.offset), Size(runs) + 3, head.value.1, |index|);
    g := DirTables(w.packer, blocks, |Stream(before)|,
                   IndexPlace(wi.packer, table, |image0|, |Stream(first)| + LDIR_INODE), index);
    if |w.table| < 0x1_0000_0000 && Size(runs) < 0x1_0000_0000 {
      StoredIndexFits(w.packer, blocks, |Stream(before)|, runs, index);
    }
  }

  /** In such an image, looking up any name gives what a linear scan of the entries gives, whichever
      reads of the index fail. */
  method LookupWritten(c: Codec, image: seq<byte>, h: DirHandle, fails: nat -> bool, name: seq<byte>, signed: bool,
                       ghost es: seq<DirEntry>, ghost g: DirTables)
    returns (r: Option<DirEntry>)
    requires Ready(c, image, h, es, g) && AllStorable(es) && Sorted(AllTruncated(es))
    ensures r == LinearFind(AllTruncated(es), name)
  {
    hide Build, Size, EncodeBlocks, Stored, Sorted, LinearFind, Lossless, EntriesOf, IndexAt, AllStorable;
    BuildEntries(es);
    r := SquashfsLookup(c, image, h.tableStart, h.start, h.fileSize, h.index0, h.count, fails, name, signed, g.p,
                        g.blocks, g.at, Build(es).runs, g.i, g.index);
  }
}
