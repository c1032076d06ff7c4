/** restorefs as a whole: an append is given up at any moment, the saved state is put back, all
    tables are written again behind the old data, and the image reads as it did before. */
module Restore {
  import opened Bytes
  import opened Compressor
  import opened Metadata
  import opened Tables
  import opened Append
  import opened Xattrs
  import IdTable
  import XattrStore
  import XattrTable
  import OldImage
  import F = Fragments
  import P = Pipeline

  /** The parts of the super block that lead to the tables. */
  datatype Super = Super(root: nat, inodes: nat, dirs: nat, fragTable: nat, idTable: nat, xattrs: Option<nat>,
                         fragments: nat, ids: nat)

  /** What the tables of an image hold. `b` and `d` are the blocks in which the root inode and
      the root directory begin. */
  datatype Contents = Contents(inodes: seq<seq<byte>>, b: nat, dirs: seq<seq<byte>>, d: nat, rows: seq<F.Row>,
                               ids: seq<nat>, lists: seq<seq<Xattr>>)

  // ---------- reading the tables of an image ----------

  /** Where the directory table ends: at the first block of the fragment table. */
  function DirsEnd(image: seq<byte>, sb: Super): nat
  {
    if sb.fragments == 0 || sb.fragTable + 8 > |image| then sb.fragTable
    else GetLe(image[sb.fragTable..sb.fragTable + 8])
  }

  ghost predicate RowsRead(c: Codec, image: seq<byte>, sb: Super, rows: seq<F.Row>)
  {
    sb.fragments == |rows| &&
    match ReadIndexed(c, image, sb.fragTable, 16 * |rows|)
    case None => false
    case Some(data) => forall i :: 0 <= i < |rows| ==> OldImage.FragmentRow(data, i) == Some(rows[i])
  }

  ghost predicate IdsRead(c: Codec, image: seq<byte>, sb: Super, ids: seq<nat>)
  {
    sb.ids == |ids| &&
    match ReadIndexed(c, image, sb.idTable, 4 * |ids|)
    case None => false
    case Some(data) => forall i :: 0 <= i < |ids| ==> IdTable.IdAt(data, i) == Some(ids[i])
  }

  ghost predicate DirsRead(c: Codec, image: seq<byte>, sb: Super, p0: Packer, x: Contents)
  {
    Decodes(c, image, sb.dirs, DirsEnd(image, sb), p0, x.dirs, |x.dirs|)
  }

  /** All tables but the directories. */
  ghost predicate OthersRead(c: Codec, image: seq<byte>, sb: Super, p0: Packer, x: Contents)
  {
    && Decodes(c, image, sb.inodes, sb.dirs, p0, x.inodes, x.b) && RowsRead(c, image, sb, x.rows)
    && IdsRead(c, image, sb, x.ids) && XattrTable.Gives(c, image, sb.xattrs, x.lists)
  }

  // ---------- values that come from fields fit into them ----------

  lemma {:induction false} LeBound(s: seq<byte>)
    ensures GetLe(s) < Span(|s|)
    decreases |s|
  {
    if s != [] {
      LeBound(s[1..]);
    }
  }

  lemma RowFits(data: seq<byte>, i: nat, row: F.Row)
    requires OldImage.FragmentRow(data, i) == Some(row)
    ensures 0 <= row.start < 0x1_0000_0000_0000_0000 && row.word < 0x1_0000_0000
  {
    hide GetLe, Span, RowAt;
    var s := RowAt(data, 16, i);
    LeBound(s[..8]);
    LeBound(s[8..12]);
    Spans();
  }

  lemma IdFits(data: seq<byte>, i: nat, id: nat)
    requires IdTable.IdAt(data, i) == Some(id)
    ensures id < 0x1_0000_0000
  {
    hide GetLe, Span, RowAt;
    LeBound(RowAt(data, 4, i));
    Spans();
  }

  // ---------- the parts of the rewritten image ----------

  lemma HoldsBehind(a: seq<byte>, b: seq<byte>, image: seq<byte>)
    requires a + b <= image
    ensures Holds(image, |a|, b)
  {
  }

  ghost predicate HasRows(table: map<nat, F.Row>, rows: seq<F.Row>)
  {
    forall i: nat :: i < |rows| ==> i in table && table[i] == rows[i]
  }

  ghost predicate RowsFit(rows: seq<F.Row>)
  {
    forall i :: 0 <= i < |rows| ==> 0 <= rows[i].start < 0x1_0000_0000_0000_0000 && rows[i].word < 0x1_0000_0000
  }

  lemma RowsBytes(table: map<nat, F.Row>, n: nat)
    requires forall i: nat :: i < n ==> i in table
    ensures |Flatten(OldImage.EncodeRows(table, n))| == 16 * n
  {
    RowsSize(OldImage.EncodeRows(table, n), 16);
  }

  /** The rewritten fragment table reads row by row. */
  lemma RowsAgain(p: Packer, image: seq<byte>, base: nat, sb: Super, rows: seq<F.Row>, table: map<nat, F.Row>)
    requires Lossless(p.codec) && |image| < Span(8) && sb.fragments == |rows| && HasRows(table, rows) && RowsFit(rows)
    requires Holds(image, base, TableBytes(p, base, Flatten(OldImage.EncodeRows(table, |rows|)), []))
    requires sb.fragTable == TableStart(p, base, Flatten(OldImage.EncodeRows(table, |rows|)))
    ensures RowsRead(p.codec, image, sb, rows)
  {
    hide TableBytes, TableStart, ReadIndexed, Lossless, OldImage.EncodeRows, OldImage.FragmentRow, Flatten, Span, Holds;
    var n := |rows|;
    var data := Flatten(OldImage.EncodeRows(table, n));
    TableReads(p, image, base, data, []);
    RowsBytes(table, n);
    forall i | 0 <= i < n
      ensures OldImage.FragmentRow(data, i) == Some(rows[i])
    {
      OldImage.RowsComeBack(p, image, base, table, n, i);
    }
  }

  /** The directories end where the fragment table begins. */
  lemma DirsEndHere(p: Packer, image: seq<byte>, base: nat, sb: Super, data: seq<byte>)
    requires |image| < Span(8) && Holds(image, base, TableBytes(p, base, data, []))
    requires sb.fragTable == TableStart(p, base, data) && (sb.fragments == 0 <==> data == [])
    ensures DirsEnd(image, sb) == base
  {
    hide TableBytes, TableStart, GetLe, Span;
    if data == [] {
      NoTable(p, base, data);
    } else {
      XattrTable.TableParts(p, image, base, data, []);
      XattrTable.FirstPosition(p, image, sb.fragTable, data, base);
    }
  }

  lemma NoTable(p: Packer, base: nat, data: seq<byte>)
    requires data == []
    ensures TableStart(p, base, data) == base
  {
  }

  lemma IdsAgain(p: Packer, image: seq<byte>, base: nat, sb: Super, ids: seq<nat>)
    requires Lossless(p.codec) && |image| < Span(8) && sb.ids == |ids| &&
             forall i :: 0 <= i < |ids| ==> ids[i] < 0x1_0000_0000
    requires Holds(image, base, TableBytes(p, base, Flatten(IdTable.EncodeIds(ids)), []))
    requires sb.idTable == TableStart(p, base, Flatten(IdTable.EncodeIds(ids)))
    ensures IdsRead(p.codec, image, sb, ids)
  {
    hide TableBytes, TableStart, ReadIndexed, Lossless, IdTable.EncodeId, IdTable.IdAt, Flatten, Span;
    var data := Flatten(IdTable.EncodeIds(ids));
    TableReads(p, image, base, data, []);
    assert |data| == 4 * |ids| by { RowsSize(IdTable.EncodeIds(ids), 4); }
    forall i | 0 <= i < |ids|
      ensures IdTable.IdAt(data, i) == Some(ids[i])
    {
      IdTable.OwnerComesBack(p, image, base, ids, i);
    }
  }

  // ---------- an append that is given up ----------

  /** The compressor with the -noI, -noF and -noX choices of the old image. */
  datatype Packers = Packers(meta: Packer, frag: Packer, xattr: Packer)

  /** Where the root inode says the root directory is. */
  datatype DirPlace = DirPlace(start: nat, offset: nat, size: nat)

  /** What has happened when the append is given up: changes to the inode and directory tables,
      requests for owners, xattr lists stored and changes by an unfinished call, the fragment
      table, and the new root inode once main has put it into the super block. */
  datatype Activity = Activity(inodes: seq<Move>, dirs: seq<Move>, owners: seq<IdTable.Request>, lists: seq<seq<Xattr>>,
                               xattrs: seq<Move>, rows: map<nat, F.Row>, root: Option<nat>)

  ghost predicate ListsStorable(lists: seq<seq<Xattr>>)
  {
    forall k :: 0 <= k < |lists| ==> AllStorable(lists[k]) && lists[k] != []
  }

  /** An image as mksquashfs writes it, perhaps with other savings demanded. */
  ghost predicate Sound(k: Packers, image: seq<byte>, sb: Super, at: DirPlace, p0: Packer, x: Contents)
  {
    && Alike(p0, k.meta) && k.frag.codec == k.meta.codec && k.xattr.codec == k.meta.codec
    && WellCut(x.inodes) && x.b < |x.inodes| && InodeRef(sb.root).block == Position(p0, x.inodes, x.b)
    && Holds(image, sb.inodes, EncodeBlocks(p0, x.inodes)) && sb.dirs == sb.inodes + |EncodeBlocks(p0, x.inodes)|
    && WellCut(x.dirs) && x.d <= |x.dirs| && at.start == Position(p0, x.dirs, x.d)
    && Holds(image, sb.dirs, EncodeBlocks(p0, x.dirs)) && at.offset + at.size == DirBytes(x.dirs, x.d)
    && RowsRead(k.meta.codec, image, sb, x.rows) && IdsRead(k.meta.codec, image, sb, x.ids) && |x.ids| <= IdTable.IDS
    && XattrTable.Gives(k.meta.codec, image, sb.xattrs, x.lists) && ListsStorable(x.lists)
  }

  /** The data threads start on this image, and `now` is what the output holds below the old
      tables when they are stopped. */
  ghost predicate Stopped(image: seq<byte>, sb: Super, x: Contents, a: Activity, now: seq<byte>, params: F.Params,
                          s: P.State, steps: seq<P.Step>)
  {
    && P.Reachable(params, s, steps) && s.bytes == sb.inodes <= |image| && s.fr.count == |x.rows| &&
      HasRows(s.fr.table, x.rows)
    && (forall i :: 0 <= i < sb.inodes ==> s.c.disk(i) == Some(image[i]))
    && P.Legal(params, s, steps) && a.rows == P.After(params, s, steps).fr.table && |now| == sb.inodes
    && forall i :: 0 <= i < |now| ==> P.After(params, s, steps).c.disk(i) == Some(now[i])
  }

  lemma DataUntouched(image: seq<byte>, sb: Super, x: Contents, a: Activity, now: seq<byte>, params: F.Params,
                      s: P.State, steps: seq<P.Step>)
    requires Stopped(image, sb, x, a, now, params, s, steps)
    ensures sb.inodes <= |image| && now == image[..sb.inodes] && HasRows(a.rows, x.rows)
  {
    hide P.Reachable, P.Legal, P.After;
    OldImage.OldImageKept(params, s, steps);
    forall i | 0 <= i < |now|
      ensures now[i] == image[i]
    {
      assert s.c.disk(i) == Some(image[i]);
    }
  }

  lemma RowsReadFit(c: Codec, image: seq<byte>, sb: Super, rows: seq<F.Row>)
    requires RowsRead(c, image, sb, rows)
    ensures RowsFit(rows)
  {
    hide OldImage.FragmentRow, ReadIndexed;
    var data := ReadIndexed(c, image, sb.fragTable, 16 * |rows|).value;
    forall i | 0 <= i < |rows|
      ensures 0 <= rows[i].start < 0x1_0000_0000_0000_0000 && rows[i].word < 0x1_0000_0000
    {
      RowFits(data, i, rows[i]);
    }
  }

  lemma IdsReadFit(c: Codec, image: seq<byte>, sb: Super, ids: seq<nat>)
    requires IdsRead(c, image, sb, ids)
    ensures forall i :: 0 <= i < |ids| ==> ids[i] < 0x1_0000_0000
  {
    hide IdTable.IdAt, ReadIndexed;
    var data := ReadIndexed(c, image, sb.idTable, 4 * |ids|).value;
    forall i | 0 <= i < |ids|
      ensures ids[i] < 0x1_0000_0000
    {
      IdFits(data, i, ids[i]);
    }
  }

  /** The inode and directory tables as they are written again. */
  function InodeBytes(k: Packers, p0: Packer, x: Contents): seq<byte>
    requires x.b <= |x.inodes|
  {
    Rewritten(p0, k.meta, x.inodes, x.b, Flatten(x.inodes[x.b..]))
  }

  function DirBytesAgain(k: Packers, p0: Packer, x: Contents): seq<byte>
    requires x.d <= |x.dirs|
  {
    Rewritten(p0, k.meta, x.dirs, LastRead(x.dirs, x.d), SavedDirs(x.dirs, x.d).cache)
  }

  /** The inode table reads as before. */
  lemma InodesAgain(k: Packers, image: seq<byte>, sb: Super, at: DirPlace, p0: Packer, x: Contents, now: seq<byte>,
                    after: seq<byte>, sb': Super)
    requires Sound(k, image, sb, at, p0, x) && now + InodeBytes(k, p0, x) <= after
    requires sb'.inodes == |now| && sb'.dirs == |now| + |InodeBytes(k, p0, x)|
    ensures Decodes(k.meta.codec, after, sb'.inodes, sb'.dirs, p0, x.inodes, x.b)
  {
    hide Rewritten, EncodeBlocks, Decodes, Alike, WellCut, RowsRead, IdsRead, XattrTable.Gives, ListsStorable, Flatten;
    HoldsBehind(now, InodeBytes(k, p0, x), after);
    RewrittenDecodes(p0, k.meta, x.inodes, x.b, after, |now|);
  }

  /** The directory table does exactly when its tail was saved. */
  lemma FrontAgain(k: Packers, image: seq<byte>, sb: Super, at: DirPlace, p0: Packer, x: Contents, now: seq<byte>,
                   after: seq<byte>, sb': Super)
    requires Sound(k, image, sb, at, p0, x)
    requires now + InodeBytes(k, p0, x) + DirBytesAgain(k, p0, x) <= after
    requires sb'.inodes == |now| && sb'.dirs == |now| + |InodeBytes(k, p0, x)|
    requires DirsEnd(after, sb') == sb'.dirs + |DirBytesAgain(k, p0, x)|
    ensures DirsRead(k.meta.codec, after, sb', p0, x) <==> TailIsSaved(x.dirs, x.d)
  {
    hide Rewritten, EncodeBlocks, Decodes, DirsEnd, Alike, WellCut, RowsRead, IdsRead, XattrTable.Gives, ListsStorable,
      TailIsSaved, SavedDirs, Flatten;
    var ino, dir := InodeBytes(k, p0, x), DirBytesAgain(k, p0, x);
    HoldsBehind(now + ino, dir, after);
    DirectoriesComeBack(p0, k.meta, x.dirs, x.d, after, |now + ino|);
  }

  /** The fragment and id tables behind them read as before. */
  lemma BackAgain(k: Packers, image: seq<byte>, sb: Super, at: DirPlace, p0: Packer, x: Contents, rows: map<nat, F.Row>,
                  front: seq<byte>, middle: seq<byte>, after: seq<byte>, sb': Super)
    requires Sound(k, image, sb, at, p0, x) && HasRows(rows, x.rows) && |after| < Span(8)
    requires middle == front + TableBytes(k.frag, |front|, Flatten(OldImage.EncodeRows(rows, |x.rows|)), [])
    requires middle + TableBytes(k.meta, |middle|, Flatten(IdTable.EncodeIds(x.ids)), []) <= after
    requires sb'.fragments == |x.rows| &&
             sb'.fragTable == TableStart(k.frag, |front|, Flatten(OldImage.EncodeRows(rows, |x.rows|)))
    requires sb'.ids == |x.ids| && sb'.idTable == TableStart(k.meta, |middle|, Flatten(IdTable.EncodeIds(x.ids)))
    ensures RowsRead(k.meta.codec, after, sb', x.rows) && IdsRead(k.meta.codec, after, sb', x.ids) &&
            DirsEnd(after, sb') == |front|
  {
    hide TableBytes, TableStart, EncodeBlocks, WellCut, RowsRead, IdsRead, XattrTable.Gives, ListsStorable, Flatten,
      DirsEnd, OldImage.EncodeRows, IdTable.EncodeIds, Lossless, RowsFit, HasRows, Span;
    RowsThere(rows, x.rows);
    var data := Flatten(OldImage.EncodeRows(rows, |x.rows|));
    assert middle <= after;
    HoldsBehind(front, TableBytes(k.frag, |front|, data, []), after);
    HoldsBehind(middle, TableBytes(k.meta, |middle|, Flatten(IdTable.EncodeIds(x.ids)), []), after);
    RowsReadFit(k.meta.codec, image, sb, x.rows);
    IdsReadFit(k.meta.codec, image, sb, x.ids);
    RowsAgain(k.frag, after, |front|, sb', x.rows, rows);
    IdsAgain(k.meta, after, |middle|, sb', x.ids);
    RowsBytes(rows, |x.rows|);
    DirsEndHere(k.frag, after, |front|, sb', data);
  }

  lemma RowsThere(table: map<nat, F.Row>, rows: seq<F.Row>)
    requires HasRows(table, rows)
    ensures forall i: nat :: i < |rows| ==> i in table
  {
  }

  /** Whether read_filesystem accepts the image: the root inode is complete and no xattr list is
      taken for an earlier one. */
  ghost predicate Accepted(sb: Super, x: Contents, beyond: (seq<byte>, seq<byte>) -> bool)
    requires x.b <= |x.inodes|
  {
    |Flatten(x.inodes[x.b..])| >= InodeRef(sb.root).offset + DIR_INODE && XattrTable.NoneMerged(x.lists, beyond)
  }

  // ---------- sizes ----------

  /** An image whose tables fit however they are compressed. */
  ghost predicate ModestImage(image: seq<byte>, x: Contents)
  {
    && |image| < LIMIT && |Flatten(x.inodes)| < LIMIT && |Flatten(x.dirs)| < LIMIT && |x.rows| < LIMIT
    && 3 * XattrStore.RoomAll(x.lists) < 0x1_0000_0000
  }

  const LIMIT: nat := 0x10_0000_0000_0000

  /** The tables fit the fields that lead to them: because the old image is modest, or because they
      turned out to. */
  ghost predicate FitsAgain(image: seq<byte>, x: Contents, after: seq<byte>, sb: Super)
  {
    || ModestImage(image, x)
    || (XattrTable.ListsSmall(x.lists) && |after| < Span(8) && |after| < sb.idTable + 0x1_0000_0000)
  }

  lemma RewrittenRoom(p0: Packer, p: Packer, blocks: seq<seq<byte>>, k: nat, tail: seq<byte>)
    requires WellCut(blocks) && k <= |blocks| && |tail| <= |Flatten(blocks)|
    ensures |Rewritten(p0, p, blocks, k, tail)| <= 6 * |Flatten(blocks)|
  {
    hide EncodeBlocks, Chop;
    FlattenAppend(blocks[..k], blocks[k..]);
    assert blocks[..k] + blocks[k..] == blocks;
    EncodeRoom(p0, blocks[..k]);
    ChopFlatten(tail);
    EncodeRoom(p, Chop(tail));
  }

  lemma TailsInside(x: Contents)
    requires x.b <= |x.inodes| && x.d <= |x.dirs|
    ensures |Flatten(x.inodes[x.b..])| <= |Flatten(x.inodes)| && |SavedDirs(x.dirs, x.d).cache| <= |Flatten(x.dirs)|
  {
    FlattenAppend(x.inodes[..x.b], x.inodes[x.b..]);
    assert x.inodes[..x.b] + x.inodes[x.b..] == x.inodes;
    FlattenAppend(x.dirs[..x.d], x.dirs[x.d..]);
    assert x.dirs[..x.d] + x.dirs[x.d..] == x.dirs;
  }

  /** The inode and directory tables take no more than six times their bytes. */
  lemma FrontRoom(k: Packers, p0: Packer, x: Contents)
    requires WellCut(x.inodes) && WellCut(x.dirs) && x.b <= |x.inodes| && x.d <= |x.dirs|
    ensures |InodeBytes(k, p0, x)| <= 6 * |Flatten(x.inodes)| && |DirBytesAgain(k, p0, x)| <= 6 * |Flatten(x.dirs)|
  {
    hide Rewritten, Flatten, WellCut, SavedDirs;
    TailsInside(x);
    RewrittenRoom(p0, k.meta, x.inodes, x.b, Flatten(x.inodes[x.b..]));
    RewrittenRoom(p0, k.meta, x.dirs, LastRead(x.dirs, x.d), SavedDirs(x.dirs, x.d).cache);
  }

  lemma BackRoom(k: Packers, x: Contents, rows: map<nat, F.Row>, front: seq<byte>, middle: seq<byte>, back: seq<byte>)
    requires forall i: nat :: i < |x.rows| ==> i in rows
    requires middle == front + TableBytes(k.frag, |front|, Flatten(OldImage.EncodeRows(rows, |x.rows|)), [])
    requires back == middle + TableBytes(k.meta, |middle|, Flatten(IdTable.EncodeIds(x.ids)), [])
    ensures |back| <= |front| + 176 * |x.rows| + 44 * |x.ids|
    ensures TableStart(k.meta, |middle|, Flatten(IdTable.EncodeIds(x.ids))) <= |back|
  {
    hide TableBytes, TableStart, Flatten, OldImage.EncodeRows, IdTable.EncodeIds;
    var rowData, idData := Flatten(OldImage.EncodeRows(rows, |x.rows|)), Flatten(IdTable.EncodeIds(x.ids));
    RowsBytes(rows, |x.rows|);
    IdRowsBytes(x.ids);
    TableRoom(k.frag, |front|, rowData, []);
    TableRoom(k.meta, |middle|, idData, []);
  }

  lemma IdRowsBytes(ids: seq<nat>)
    ensures |Flatten(IdTable.EncodeIds(ids))| == 4 * |ids|
  {
    RowsSize(IdTable.EncodeIds(ids), 4);
  }

  /** When the tables fit, the xattr tables behind them do, and so does the image. */
  lemma AllFits(image: seq<byte>, x: Contents, front: nat, back: seq<byte>, after: seq<byte>, sb': Super)
    requires FitsAgain(image, x, after, sb') && ListsStorable(x.lists) && |x.ids| <= IdTable.IDS
    requires front <= |image| + 6 * |Flatten(x.inodes)| + 6 * |Flatten(x.dirs)|
    requires |back| <= front + 176 * |x.rows| + 44 * |x.ids| && back <= after && sb'.idTable <= |back|
    requires |after| <= |back| + 3 * XattrStore.RoomAll(x.lists) + 176 * |x.lists| + 16
    ensures XattrTable.Fits(x.lists, |back|, |after|) && |after| < Span(8)
  {
    hide Flatten, XattrStore.RoomAll, XattrTable.ListsSmall;
    Spans();
    if ModestImage(image, x) {
      XattrTable.RoomCount(x.lists);
    }
  }

  // ---------- the root inode ----------

  /** Where in the inode table a reader finds the root inode. */
  function RootPlace(c: Codec, image: seq<byte>, sb: Super): Option<nat>
  {
    match ReadBlocks(c, image, sb.inodes, sb.dirs)
    case None => None
    case Some(found) => Resolve(Collect(found), sb.inodes, sb.root)
  }

  /** The bytes it reads there. */
  function RootBytes(c: Codec, image: seq<byte>, sb: Super, len: nat): Option<seq<byte>>
  {
    match ReadBlocks(c, image, sb.inodes, sb.dirs)
    case None => None
    case Some(found) => Fetch(Collect(found), sb.inodes, sb.root, len)
  }

  lemma OldTable(k: Packers, image: seq<byte>, sb: Super, at: DirPlace, p0: Packer, x: Contents)
    requires Sound(k, image, sb, at, p0, x)
    ensures ReadBlocks(k.meta.codec, image, sb.inodes, sb.dirs) == Some(LocatedFrom(p0, x.inodes, sb.inodes, 0))
    ensures Lookup(Collect(LocatedFrom(p0, x.inodes, sb.inodes, 0)).index, sb.inodes + InodeRef(sb.root).block) ==
            Some(BLOCK * x.b)
  {
    hide EncodeBlocks, LocatedFrom, Collect, Lookup, RowsRead, IdsRead, XattrTable.Gives, ListsStorable, InodeRef,
      Lossless, WellCut, ReadBlocks, Flatten, DirBytes;
    var l := LocatedFrom(p0, x.inodes, sb.inodes, 0);
    NothingLeft(k.meta.codec, image, sb.dirs);
    ReadThrough(p0, k.meta.codec, x.inodes, image, sb.inodes, sb.dirs, [], 0);
    AtStart(p0, x.inodes);
    assert l + [] == l;
    TakeAll(l);
    CollectLookup(p0, x.inodes, sb.inodes, |x.inodes|, x.b);
  }

  lemma NothingLeft(c: Codec, image: seq<byte>, end: nat)
    ensures ReadBlocks(c, image, end, end) == Some([])
  {
  }

  /** A position is found where a block begins, and gives that block's place in the stream. */
  lemma PlaceOfBlock(found: seq<Located>, blocks: seq<seq<byte>>, start: nat) returns (j: nat)
    requires |found| == |blocks| && WellCut(blocks) && Rising(found) && Lookup(Collect(found).index, start).Some?
    requires forall i :: 0 <= i < |found| ==> found[i].data == blocks[i]
    ensures j < |found| && found[j].start == start && Lookup(Collect(found).index, start) == Some(BLOCK * j)
  {
    hide Lookup, Collect, WellCut, Rising;
    TakeAll(found);
    if exists i :: 0 <= i < |found| && found[i].start == start {
      j :| 0 <= j < |found| && found[j].start == start;
      FoundLookup(found, blocks, |found|, j);
    } else {
      NotFound(found, |found|, start);
      assert false;
    }
  }

  /** In a table that reads as before, a root reference leads to the place of the old root inode
      exactly when it is the old reference, and then to the same bytes. */
  lemma RootExact(k: Packers, image: seq<byte>, sb: Super, at: DirPlace, p0: Packer, x: Contents, after: seq<byte>,
                  sb': Super)
    requires Sound(k, image, sb, at, p0, x) && sb'.inodes == sb.inodes
    requires Decodes(k.meta.codec, after, sb'.inodes, sb'.dirs, p0, x.inodes, x.b)
    requires InodeRef(sb.root).offset < BLOCK && InodeRef(sb'.root).offset < BLOCK
    ensures RootPlace(k.meta.codec, after, sb') == RootPlace(k.meta.codec, image, sb) <==>
            InodeRef(sb'.root) == InodeRef(sb.root)
    ensures RootPlace(k.meta.codec, image, sb).Some?
  {
    hide EncodeBlocks, LocatedFrom, Collect, Lookup, RowsRead, IdsRead, XattrTable.Gives, ListsStorable, InodeRef,
      Lossless, WellCut, ReadBlocks, Flatten, DirBytes, Rising;
    OldTable(k, image, sb, at, p0, x);
    var found := ReadBlocks(k.meta.codec, after, sb'.inodes, sb'.dirs).value;
    var start := sb.inodes + InodeRef(sb'.root).block;
    if Lookup(Collect(found).index, start).Some? {
      var j := PlaceOfBlock(found, x.inodes, start);
    }
    TakeAll(found);
    FoundLookup(found, x.inodes, |found|, x.b);
  }

  lemma RootFetched(k: Packers, image: seq<byte>, sb: Super, at: DirPlace, p0: Packer, x: Contents, after: seq<byte>,
                    sb': Super, len: nat)
    requires Sound(k, image, sb, at, p0, x) && sb'.inodes == sb.inodes
    requires Decodes(k.meta.codec, after, sb'.inodes, sb'.dirs, p0, x.inodes, x.b)
    requires InodeRef(sb'.root) == InodeRef(sb.root)
    ensures RootBytes(k.meta.codec, after, sb', len) == RootBytes(k.meta.codec, image, sb, len)
  {
    hide EncodeBlocks, LocatedFrom, Collect, Lookup, RowsRead, IdsRead, XattrTable.Gives, ListsStorable, Lossless,
      WellCut, ReadBlocks, Flatten, DirBytes, Finds;
    OldTable(k, image, sb, at, p0, x);
    var found := ReadBlocks(k.meta.codec, after, sb'.inodes, sb'.dirs).value;
    var l := LocatedFrom(p0, x.inodes, sb.inodes, 0);
    var r := InodeRef(sb.root);
    InodePacking(r);
    FetchKept(p0, x.inodes, sb.inodes, Collect(l), found, sb'.inodes, x.b, x.b, r, len);
  }

  /** What the rewritten image says about the root inode. */
  ghost predicate RootRight(c: Codec, image: seq<byte>, sb: Super, after: seq<byte>, sb': Super)
  {
    && (InodeRef(sb.root).offset < BLOCK && InodeRef(sb'.root).offset < BLOCK ==>
          (RootPlace(c, after, sb') == RootPlace(c, image, sb) <==> InodeRef(sb'.root) == InodeRef(sb.root)))
    && (InodeRef(sb'.root) == InodeRef(sb.root) ==>
          forall len :: RootBytes(c, after, sb', len) == RootBytes(c, image, sb, len))
    && (sb'.dirs <= sb'.inodes + InodeRef(sb'.root).block ==> RootPlace(c, after, sb') == None)
  }

  lemma RootIsRight(k: Packers, image: seq<byte>, sb: Super, at: DirPlace, p0: Packer, x: Contents, after: seq<byte>,
                    sb': Super)
    requires Sound(k, image, sb, at, p0, x) && sb'.inodes == sb.inodes
    requires Decodes(k.meta.codec, after, sb'.inodes, sb'.dirs, p0, x.inodes, x.b)
    ensures RootRight(k.meta.codec, image, sb, after, sb')
  {
    hide Sound, RootPlace, RootBytes, InodeRef, Finds;
    if InodeRef(sb.root).offset < BLOCK && InodeRef(sb'.root).offset < BLOCK {
      RootExact(k, image, sb, at, p0, x, after, sb');
    }
    if InodeRef(sb'.root) == InodeRef(sb.root) {
      forall len: nat
        ensures RootBytes(k.meta.codec, after, sb', len) == RootBytes(k.meta.codec, image, sb, len)
      {
        RootFetched(k, image, sb, at, p0, x, after, sb', len);
      }
    }
    if sb'.dirs <= sb'.inodes + InodeRef(sb'.root).block {
      RootBeyond(k.meta.codec, after, sb');
      NoPlace(k.meta.codec, after, sb');
    }
  }

  lemma NoPlace(c: Codec, image: seq<byte>, sb: Super)
    requires ReadBlocks(c, image, sb.inodes, sb.dirs).Some?
    requires Resolve(Collect(ReadBlocks(c, image, sb.inodes, sb.dirs).value), sb.inodes, sb.root) == None
    ensures RootPlace(c, image, sb) == None
  {
  }

  // ---------- giving up ----------

  /** An append to any sound image, given up at any moment: the data below the tables is
      untouched, the inode, fragment, id and xattr tables read as before, the directory table does
      exactly when its tail was saved. The super block leads to the old root inode exactly when
      main had not put another reference into it; one beyond the old table leads nowhere. */
  method AbortAppend(k: Packers, image: seq<byte>, sb: Super, at: DirPlace, becomes: bool, a: Activity, now: seq<byte>,
                     beyond: (seq<byte>, seq<byte>) -> bool, ghost p0: Packer, ghost x: Contents,
                     ghost params: F.Params, ghost s: P.State, ghost steps: seq<P.Step>)
    returns (out: Option<(seq<byte>, Super)>)
    requires Sound(k, image, sb, at, p0, x) && Stopped(image, sb, x, a, now, params, s, steps) && ListsStorable(a.lists)
    ensures out.Some? <==> Accepted(sb, x, beyond)
    ensures out.Some? ==>
              var (after, sb') := out.value;
              && sb'.inodes == sb.inodes <= |after| && sb.inodes <= |image| && after[..sb.inodes] == image[..sb.inodes]
              && Decodes(k.meta.codec, after, sb'.inodes, sb'.dirs, p0, x.inodes, x.b)
              && sb'.root == (if a.root.Some? then a.root.value else sb.root)
              && RootRight(k.meta.codec, image, sb, after, sb')
              && (FitsAgain(image, x, after, sb') ==>
                    && OthersRead(k.meta.codec, after, sb', p0, x)
                    && (DirsRead(k.meta.codec, after, sb', p0, x) <==> TailIsSaved(x.dirs, x.d)))
  {
    hide Rewritten, EncodeBlocks, Decodes, Lossless, WellCut, RowsRead, IdsRead, XattrTable.Gives, TailIsSaved,
      SavedDirs, Flatten, TableBytes, TableStart, OldImage.EncodeRows, IdTable.EncodeIds, Stopped, DirsRead, Span,
      DirsEnd, XattrTable.NoneMerged, InodeRef, ListsStorable, EncodeBlock, RootRight, FitsAgain, XattrTable.Fits,
      XattrStore.RoomAll, HasRows;
    DataUntouched(image, sb, x, a, now, params, s, steps);
    var ino := AbortInodes(k.meta, image, sb.inodes, sb.dirs, InodeRef(sb.root), becomes, a.inodes, p0, x.inodes, x.b);
    if ino.None? {
      return None;
    }
    var dir := AbortDirectories(k.meta, image, sb.dirs, at.start, at.offset, at.size, becomes, a.dirs, p0, x.dirs, x.d);
    var front := now + ino.value + dir;
    RowsThere(a.rows, x.rows);
    FragmentsRead(k, image, sb, x);
    var middle, frag := OldImage.WriteFragmentTable(k.frag, front, a.rows, sb.fragments);
    var ids := ReadIds(k.meta.codec, image, sb, x.ids);
    var back, idt := IdTable.AbortIds(k.meta, middle, ids, a.owners);
    StorableLists(k, image, sb, at, p0, x, a);
    var xr := XattrTable.AbortXattrs(k.xattr, image, sb.xattrs, a.lists, a.xattrs, beyond, back, x.lists);
    if xr.None? {
      return None;
    }
    var (after, xattrs) := xr.value;
    var root := if a.root.Some? then a.root.value else sb.root;
    var sb' := Super(root, |now|, |now| + |ino.value|, frag, idt, xattrs, sb.fragments, |ids|);
    InodesAgain(k, image, sb, at, p0, x, now, after, sb');
    RootIsRight(k, image, sb, at, p0, x, after, sb');
    if FitsAgain(image, x, after, sb') {
      FrontRoom(k, p0, x);
      BackRoom(k, x, a.rows, front, middle, back);
      AllFits(image, x, |front|, back, after, sb');
      BackAgain(k, image, sb, at, p0, x, a.rows, front, middle, after, sb');
      FrontAgain(k, image, sb, at, p0, x, now, after, sb');
    }
    out := Some((after, sb'));
  }

  /** read_id_table, as far as it reads the ids. */
  method ReadIds(c: Codec, image: seq<byte>, sb: Super, ghost was: seq<nat>) returns (ids: seq<nat>)
    requires IdsRead(c, image, sb, was)
    ensures ids == was
  {
    hide ReadIndexed, IdTable.IdAt;
    var data := ReadIndexedTable(c, image, sb.idTable, 4 * sb.ids);
    ids := [];
    for i := 0 to sb.ids
      invariant ids == was[..i]
    {
      ids := ids + [IdTable.IdAt(data.value, i).value];
    }
  }

  lemma FragmentsRead(k: Packers, image: seq<byte>, sb: Super, x: Contents)
    requires RowsRead(k.meta.codec, image, sb, x.rows) && IdsRead(k.meta.codec, image, sb, x.ids)
    ensures sb.fragments == |x.rows| && sb.ids == |x.ids|
  {
  }

  lemma StorableLists(k: Packers, image: seq<byte>, sb: Super, at: DirPlace, p0: Packer, x: Contents, a: Activity)
    requires ListsStorable(x.lists) && ListsStorable(a.lists)
    ensures forall i :: 0 <= i < |x.lists| ==> AllStorable(x.lists[i]) && x.lists[i] != []
    ensures forall i :: 0 <= i < |a.lists| ==> AllStorable(a.lists[i]) && a.lists[i] != []
  {
  }

  // ---------- an abort after main has set the new root inode ----------

  lemma {:induction false} FoundWithin(c: Codec, image: seq<byte>, start: nat, end: nat)
    requires ReadBlocks(c, image, start, end).Some?
    ensures var found := ReadBlocks(c, image, start, end).value;
            forall i :: 0 <= i < |found| ==> start <= found[i].start < end
    decreases end - start
  {
    hide ReadBlock;
    if start < end {
      FoundWithin(c, image, ReadBlock(c, image, start, 0).value.1, end);
    }
  }

  lemma {:induction false} NotFound(found: seq<Located>, n: nat, start: nat)
    requires n <= |found| && forall i :: 0 <= i < |found| ==> found[i].start != start
    ensures Lookup(Collect(found[..n]).index, start) == None
    decreases n
  {
    hide AddEntry, Lookup;
    if n > 0 {
      TakeTake(found, n - 1, n);
      NotFound(found, n - 1, start);
      var t := Collect(found[..n - 1]);
      LookupAfterAdd(t.index, found[n - 1].start, |t.bytes|, start);
    } else {
      NothingThere(start);
    }
  }

  lemma NothingThere(start: nat)
    ensures Lookup(Collect([]).index, start) == None
  {
  }

  /** A root inode beyond the end of the inode table is not found. */
  lemma RootBeyond(c: Codec, image: seq<byte>, sb: Super)
    requires ReadBlocks(c, image, sb.inodes, sb.dirs).Some? && sb.dirs <= sb.inodes + InodeRef(sb.root).block
    ensures Resolve(Collect(ReadBlocks(c, image, sb.inodes, sb.dirs).value), sb.inodes, sb.root) == None
  {
    hide ReadBlocks, Lookup, Collect, InodeRef;
    var found := ReadBlocks(c, image, sb.inodes, sb.dirs).value;
    FoundWithin(c, image, sb.inodes, sb.dirs);
    TakeAll(found);
    NotFound(found, |found|, sb.inodes + InodeRef(sb.root).block);
  }

  /** An inode table of the root inode alone, uncompressed, to which 8192 bytes of inodes and a new
      root inode are appended. When the append is given up after main has put the new root into the
      super block, the table is the old one and the root inode cannot be found in it. */
  lemma LateAbortLosesRoot(p: Packer, root: seq<byte>, added: seq<byte>, image: seq<byte>, sb: Super)
    requires p.off && Lossless(p.codec) && |root| == DIR_INODE && |added| == BLOCK
    requires sb.root == MkInode(RefOf(p, Put(Meta([], []), added)))
    requires Holds(image, sb.inodes, EncodeBlocks(p, [root])) && sb.dirs == sb.inodes + |EncodeBlocks(p, [root])|
    ensures InodeRef(sb.root) == Ref(BLOCK + 2, 0)
    ensures ReadBlocks(p.codec, image, sb.inodes, sb.dirs) == Some([Located(sb.inodes, root)])
    ensures Resolve(Collect([Located(sb.inodes, root)]), sb.inodes, sb.root) == None
  {
    hide ReadBlocks, Resolve, Collect, Lossless, Flush, EncodeBlocks, InodeRef, MkInode, LocatedFrom;
    OneBlock(p, added);
    OneBlock(p, root);
    AppendedRoot(p, added);
    InodePacking(Ref(BLOCK + 2, 0));
    ReadBlocksBack(p, [root], image, sb.inodes, 0);
    AtStart(p, [root]);
    assert LocatedFrom(p, [root], sb.inodes, 0) == [Located(sb.inodes, root)];
    RootBeyond(p.codec, image, sb);
  }

  lemma OneBlock(p: Packer, block: seq<byte>)
    requires p.off
    ensures |EncodeBlocks(p, [block])| == |block| + 2
  {
    assert [block][..0] == [];
  }

  lemma AppendedRoot(p: Packer, added: seq<byte>)
    requires |added| == BLOCK && p.off
    ensures RefOf(p, Put(Meta([], []), added)) == Ref(BLOCK + 2, 0)
  {
    OneBlock(p, added);
    var m := Put(Meta([], []), added);
    assert [] + added == added;
    assert m == Meta([], added);
    assert added[..BLOCK] == added && added[BLOCK..] == [];
    assert [] + [added] == [added];
    assert Flush(m) == Flush(Meta([added], []));
  }
}
