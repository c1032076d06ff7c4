/** The xattr tables as bytes: what write_xattrs puts into the image, what
    read_xattrs_from_disk makes of it, and the lists every id stands for, after a run of
    generate_xattrs and after an append that is given up. */
module XattrTable {
  import opened Bytes
  import opened Compressor
  import opened Metadata
  import opened Tables
  import opened Xattrs
  import opened XattrStore
  import Append

  // ---------- the bytes of the id table ----------

  function EncodeXattrId(id: XattrId): (s: seq<byte>)
    ensures |s| == 16
  {
    PutLe(MkInode(id.ref), 8) + PutLe(id.count, 4) + PutLe(id.size, 4)
  }

  function EncodeXattrIds(ids: seq<XattrId>): (rows: seq<seq<byte>>)
    ensures |rows| == |ids| && forall i :: 0 <= i < |ids| ==> rows[i] == EncodeXattrId(ids[i])
  {
    seq(|ids|, i requires 0 <= i < |ids| => EncodeXattrId(ids[i]))
  }

  /** xattr_table_start, xattr_ids and an unused word. */
  function Header(base: nat, n: nat): (s: seq<byte>)
    ensures |s| == 16
  {
    PutLe(base, 8) + PutLe(n, 4) + PutLe(0, 4)
  }

  function DecodeXattrId(row: seq<byte>): XattrId
    requires |row| == 16
  {
    XattrId(InodeRef(GetLe(row[..8])), GetLe(row[8..12]), GetLe(row[12..]))
  }

  function DecodeXattrIds(s: seq<byte>, n: nat): (ids: seq<XattrId>)
    requires 16 * n <= |s|
    ensures |ids| == n
  {
    if n == 0 then [] else DecodeXattrIds(s, n - 1) + [DecodeXattrId(RowAt(s, 16, n - 1))]
  }

  ghost predicate IdFits(id: XattrId)
  {
    id.ref.block < 0x1_0000_0000 && id.ref.offset < BLOCK && id.count < 0x1_0000_0000 && id.size < 0x1_0000_0000
  }

  ghost predicate IdsFit(ids: seq<XattrId>)
  {
    |ids| < 0x1_0000_0000 && forall i :: 0 <= i < |ids| ==> IdFits(ids[i])
  }

  lemma RecordBack(id: XattrId)
    requires IdFits(id)
    ensures DecodeXattrId(EncodeXattrId(id)) == id
  {
    hide PutLe, GetLe, MkInode, InodeRef;
    Spans();
    RefWord(id.ref);
    InodePacking(id.ref);
    LeRoundTrip(MkInode(id.ref), 8);
    LeRoundTrip(id.count, 4);
    LeRoundTrip(id.size, 4);
    var a, b, c := PutLe(MkInode(id.ref), 8), PutLe(id.count, 4), PutLe(id.size, 4);
    assert (a + b + c)[..8] == a && (a + b + c)[8..12] == b && (a + b + c)[12..] == c;
  }

  lemma {:induction false} RecordsBack(ids: seq<XattrId>, n: nat)
    requires IdsFit(ids) && n <= |ids|
    ensures 16 * n <= |Flatten(EncodeXattrIds(ids))| && DecodeXattrIds(Flatten(EncodeXattrIds(ids)), n) == ids[..n]
    decreases n
  {
    hide EncodeXattrId, DecodeXattrId, RowAt;
    var rows := EncodeXattrIds(ids);
    RowsSize(rows, 16);
    if n > 0 {
      RecordsBack(ids, n - 1);
      RowBack(rows, 16, n - 1);
      RecordBack(ids[n - 1]);
    }
  }

  // ---------- write_xattrs ----------

  /** The xattr stream, closed, and the table of ids behind it. */
  function XattrBytes(p: Packer, base: nat, m: Meta, ids: seq<XattrId>): seq<byte>
  {
    var stream := EncodeBlocks(p, Close(m));
    stream + TableBytes(p, base + |stream|, Flatten(EncodeXattrIds(ids)), Header(base, |ids|))
  }

  function XattrStart(p: Packer, base: nat, m: Meta, ids: seq<XattrId>): nat
  {
    TableStart(p, base + |EncodeBlocks(p, Close(m))|, Flatten(EncodeXattrIds(ids)))
  }

  /** write_xattrs: without any id nothing is written and the start is invalid. */
  method WriteXattrs(w: Writer, ids: seq<XattrId>, image0: seq<byte>) returns (image: seq<byte>, start: Option<nat>)
    requires w.Stands()
    modifies w
    ensures ids == [] ==> image == image0 && start == None
    ensures ids != [] ==> image == image0 + XattrBytes(w.packer, |image0|, old(w.meta), ids)
    ensures ids != [] ==> start == Some(XattrStart(w.packer, |image0|, old(w.meta), ids))
  {
    hide EncodeBlocks, TableBytes, TableStart, Flatten, Close, EncodeXattrIds, Header;
    if ids == [] {
      return image0, None;
    }
    w.Finish();
    image := image0 + w.table;
    var data := IdRows(ids);
    var at;
    image, at := GenericWriteTable(w.packer, image, data, Header(|image0|, |ids|));
    Assoc(image0, w.table, TableBytes(w.packer, |image0 + w.table|, data, Header(|image0|, |ids|)));
    start := Some(at);
  }

  method IdRows(ids: seq<XattrId>) returns (data: seq<byte>)
    ensures data == Flatten(EncodeXattrIds(ids))
  {
    hide Flatten, EncodeXattrId;
    data := [];
    FlattenNone();
    for i := 0 to |ids|
      invariant data == Flatten(EncodeXattrIds(ids)[..i])
    {
      FlattenSnoc(EncodeXattrIds(ids), i);
      data := data + EncodeXattrId(ids[i]);
    }
    TakeAll(EncodeXattrIds(ids));
  }

  lemma FlattenNone()
    ensures Flatten<byte>([]) == []
  {
  }

  lemma FlattenSnoc(rows: seq<seq<byte>>, i: nat)
    requires i < |rows|
    ensures Flatten(rows[..i + 1]) == Flatten(rows[..i]) + rows[i]
  {
    TakeTake(rows, i, i + 1);
  }

  // ---------- read_xattrs_from_disk ----------

  /** What is kept in memory: the xattr stream with its index, where it begins in the image,
      and the ids. */
  datatype Loaded = Loaded(table: Table, base: nat, ids: seq<XattrId>)

  function ReadXattrs(c: Codec, image: seq<byte>, start: nat): Option<Loaded>
  {
    if start + 24 > |image| then None else
    var base, n := GetLe(image[start..start + 8]), GetLe(image[start + 8..start + 12]);
    if n == 0 then None else
    match ReadIndexed(c, image, start + 16, 16 * n)
    case None => None
    case Some(data) =>
      match ReadBlocks(c, image, base, GetLe(image[start + 16..start + 24]))
      case None => None
      case Some(found) => if 16 * n <= |data| then Some(Loaded(Collect(found), base, DecodeXattrIds(data, n))) else None
  }

  method ReadXattrsFromDisk(c: Codec, image: seq<byte>, start: nat) returns (r: Option<Loaded>)
    ensures r == ReadXattrs(c, image, start)
  {
    hide ReadIndexed, ReadBlocks, Collect, GetLe, DecodeXattrId;
    if start + 24 > |image| {
      return None;
    }
    var base, n := GetLe(image[start..start + 8]), GetLe(image[start + 8..start + 12]);
    if n == 0 {
      return None;
    }
    var data := ReadIndexedTable(c, image, start + 16, 16 * n);
    if data.None? {
      return None;
    }
    var table := ReadTable(c, image, base, GetLe(image[start + 16..start + 24]));
    if table.None? || 16 * n > |data.value| {
      return None;
    }
    var ids := [];
    for i := 0 to n
      invariant ids == DecodeXattrIds(data.value, i)
    {
      ids := ids + [DecodeXattrId(RowAt(data.value, 16, i))];
    }
    r := Some(Loaded(table.value, base, ids));
  }

  /** get_xattr for id i. */
  function ListAtId(x: Loaded, i: nat): Option<seq<Xattr>>
  {
    if i < |x.ids| then DecodeId(x.table, x.base, x.ids[i]) else None
  }

  /** Reading the image gives exactly these lists, in the order of their ids. */
  ghost predicate Gives(c: Codec, image: seq<byte>, start: Option<nat>, lists: seq<seq<Xattr>>)
  {
    if start.None? then lists == [] else
    match ReadXattrs(c, image, start.value)
    case None => false
    case Some(x) => |x.ids| == |lists| && forall i :: 0 <= i < |lists| ==> ListAtId(x, i) == Some(lists[i])
  }

  // ---------- the round trip ----------

  lemma HeaderFields(image: seq<byte>, start: nat, base: nat, n: nat)
    requires Holds(image, start, Header(base, n)) && base < Span(8) && n < Span(4)
    ensures GetLe(image[start..start + 8]) == base && GetLe(image[start + 8..start + 12]) == n
  {
    hide PutLe, GetLe, Span;
    var a, b, c := PutLe(base, 8), PutLe(n, 4), PutLe(0, 4);
    LeRoundTrip(base, 8);
    LeRoundTrip(n, 4);
    assert [] + a + (b + c) == Header(base, n) && a + b + c == Header(base, n);
    HoldsPart(image, start, [], a, b + c);
    HoldsPart(image, start, a, b, c);
  }

  /** The first entry of the position list is where the table of ids begins. */
  lemma FirstPosition(p: Packer, image: seq<byte>, at: nat, data: seq<byte>, base: nat)
    requires data != [] && base < Span(8) && Holds(image, at, PutLongs(Starts(p, Chop(data), base, |Chop(data)|)))
    ensures at + 8 <= |image| && GetLe(image[at..at + 8]) == base
  {
    hide PutLe, GetLe, Span, Chop, EncodeBlocks, PutLongs;
    var blocks := Chop(data);
    var list := Starts(p, blocks, base, |blocks|);
    LongAt(list, 0);
    Append.AtStart(p, blocks);
    assert list[0] == base + Position(p, blocks, 0);
    HoldsSlice(image, at, PutLongs(list), 0, 8);
    LeRoundTrip(base, 8);
  }

  /** Where the parts of the table of ids stand. */
  lemma TableParts(p: Packer, image: seq<byte>, at: nat, data: seq<byte>, header: seq<byte>)
    requires Holds(image, at, TableBytes(p, at, data, header))
    ensures Holds(image, TableStart(p, at, data), header)
    ensures Holds(image, TableStart(p, at, data) + |header|, PutLongs(Starts(p, Chop(data), at, |Chop(data)|)))
  {
    hide EncodeBlocks, Chop, PutLongs, Starts;
    var enc, list := EncodeBlocks(p, Chop(data)), PutLongs(Starts(p, Chop(data), at, |Chop(data)|));
    HoldsPart(image, at, enc, header, list);
    HoldsPart(image, at, enc + header, list, []) by { assert enc + header + list + [] == enc + header + list; }
  }

  ghost predicate CountsFit(ids: seq<XattrId>)
  {
    |ids| < 0x1_0000_0000 && forall i :: 0 <= i < |ids| ==> ids[i].count < 0x1_0000_0000 && ids[i].size < 0x1_0000_0000
  }

  lemma RefsFit(p: Packer, m: Meta, base: nat, t: Table, ids: seq<XattrId>, layouts: seq<Layout>,
                given: seq<seq<Xattr>>)
    requires ListsOk(p, m, ids, layouts, given) && Closed(p, m, base, t) && CountsFit(ids)
    ensures IdsFit(ids)
  {
    hide Closed, Names, EncodeItems, ItemRight, Storable, ListSize, ListOf;
    forall i | 0 <= i < |ids|
      ensures IdFits(ids[i])
    {
      assert ListAt(p, m, ids[i], layouts[i], given[i]);
      RefInTable(p, m, base, t, ids[i].ref, layouts[i].at);
    }
  }

  lemma StreamLoaded(p: Packer, m: Meta, image: seq<byte>, base: nat)
    requires Lossless(p.codec) && Full(m.blocks) && Holds(image, base, EncodeBlocks(p, Close(m)))
    requires |EncodeBlocks(p, Close(m))| < 0x1_0000_0000
    ensures var found := ReadBlocks(p.codec, image, base, base + |EncodeBlocks(p, Close(m))|);
            found.Some? && Closed(p, m, base, Collect(found.value))
  {
    hide EncodeBlocks, Collect, LocatedFrom, ReadBlocks, Close, Lossless;
    CloseStream(m);
    ReadBlocksBack(p, Close(m), image, base, 0);
    Append.AtStart(p, Close(m));
  }

  /** What write_xattrs writes for a valid store gives, when read, the list of every id. */
  lemma XattrsComeBack(p: Packer, m: Meta, ids: seq<XattrId>, layouts: seq<Layout>, given: seq<seq<Xattr>>,
                       image: seq<byte>, base: nat)
    requires Lossless(p.codec) && Full(m.blocks) && ListsOk(p, m, ids, layouts, given) && ids != [] && CountsFit(ids)
    requires Holds(image, base, XattrBytes(p, base, m, ids)) && |image| < Span(8) &&
             |EncodeBlocks(p, Close(m))| < 0x1_0000_0000
    ensures Gives(p.codec, image, Some(XattrStart(p, base, m, ids)), given)
  {
    hide EncodeBlocks, TableBytes, TableStart, Close, ReadIndexed, ReadBlocks, Closed, ListsOk, Lossless, Collect,
      DecodeId, PutLongs, Chop, Starts, EncodeXattrIds, DecodeXattrIds, GetLe, Span, Flatten, Header, Full;
    var stream, data, header := EncodeBlocks(p, Close(m)), Flatten(EncodeXattrIds(ids)), Header(base, |ids|);
    var at := base + |stream|;
    var table := TableBytes(p, at, data, header);
    var start := TableStart(p, at, data);
    HoldsPart(image, base, [], stream, table) by { assert [] + stream + table == stream + table; }
    HoldsPart(image, base, stream, table, []) by { assert stream + table + [] == stream + table; }
    TableParts(p, image, at, data, header);
    Spans();
    HeaderFields(image, start, base, |ids|);
    RowsSize(EncodeXattrIds(ids), 16);
    FirstPosition(p, image, start + 16, data, at);
    TableReads(p, image, at, data, header);
    StreamLoaded(p, m, image, base);
    var t := Collect(ReadBlocks(p.codec, image, base, at).value);
    RefsFit(p, m, base, t, ids, layouts, given);
    RecordsBack(ids, |ids|);
    TakeAll(ids);
    assert |ids| == |given| by { SameCount(p, m, ids, layouts, given); }
    forall i | 0 <= i < |ids|
      ensures DecodeId(t, base, ids[i]) == Some(given[i])
    {
      IdsDecode(p, m, base, t, ids, layouts, given, i);
    }
  }

  lemma SameCount(p: Packer, m: Meta, ids: seq<XattrId>, layouts: seq<Layout>, given: seq<seq<Xattr>>)
    requires ListsOk(p, m, ids, layouts, given)
    ensures |ids| == |given|
  {
  }

  // ---------- from lists to lists ----------

  /** Positions, counts and sizes fit the fields that hold them. */
  ghost predicate Small(p: Packer, m: Meta, ids: seq<XattrId>, image: seq<byte>)
  {
    |EncodeBlocks(p, Close(m))| < 0x1_0000_0000 && |image| < Span(8) && CountsFit(ids)
  }

  /** There are few enough lists, entries and bytes for the fields of the ids. */
  ghost predicate ListsSmall(lists: seq<seq<Xattr>>)
  {
    && |lists| < 0x1_0000_0000
    && forall k :: 0 <= k < |lists| ==> |lists[k]| < 0x1_0000_0000 && ListSize(lists[k]) < 0x1_0000_0000
  }

  /** Lists that fit however they are stored and compressed. */
  ghost predicate Modest(lists: seq<seq<Xattr>>, base: nat)
  {
    3 * RoomAll(lists) < 0x1_0000_0000 && base < 0x8000_0000_0000_0000
  }

  /** The lists, written at `base` in an image that then has `size` bytes, fit: because they are
      modest, or because they turned out to. */
  ghost predicate Fits(lists: seq<seq<Xattr>>, base: nat, size: nat)
  {
    || Modest(lists, base)
    || (ListsSmall(lists) && base <= size && size - base < 0x1_0000_0000 && size < Span(8))
  }

  lemma {:induction false} RoomOf(lists: seq<seq<Xattr>>, k: nat)
    requires k < |lists|
    ensures Room(lists[k]) <= RoomAll(lists)
    decreases |lists|
  {
    hide Room;
    var n := |lists| - 1;
    if k < n {
      RoomOf(lists[..n], k);
    }
  }

  lemma {:induction false} RoomCount(lists: seq<seq<Xattr>>)
    requires forall k :: 0 <= k < |lists| ==> lists[k] != []
    ensures |lists| <= RoomAll(lists)
    decreases |lists|
  {
    if lists != [] {
      RoomCount(lists[..|lists| - 1]);
      RoomBounds(lists[|lists| - 1]);
    }
  }

  lemma ModestSmall(lists: seq<seq<Xattr>>, base: nat)
    requires Modest(lists, base) && forall k :: 0 <= k < |lists| ==> lists[k] != []
    ensures ListsSmall(lists)
  {
    hide RoomAll, ListSize, ItemRoom, ValueRoom;
    RoomCount(lists);
    forall k | 0 <= k < |lists|
      ensures |lists[k]| < 0x1_0000_0000 && ListSize(lists[k]) < 0x1_0000_0000
    {
      RoomOf(lists, k);
      RoomBounds(lists[k]);
    }
  }

  /** The ids of these lists, perhaps with some merged, fit. */
  lemma CountsSmall(p: Packer, m: Meta, ids: seq<XattrId>, layouts: seq<Layout>, given: seq<seq<Xattr>>,
                    lists: seq<seq<Xattr>>)
    requires ListsOk(p, m, ids, layouts, given) && ListsSmall(lists)
    requires |given| <= |lists| && forall i :: 0 <= i < |given| ==> given[i] in lists
    ensures CountsFit(ids)
  {
    hide ListSize, Names, EncodeItems, ItemRight, Storable, ListOf;
    forall i | 0 <= i < |ids|
      ensures ids[i].count < 0x1_0000_0000 && ids[i].size < 0x1_0000_0000
    {
      assert ListAt(p, m, ids[i], layouts[i], given[i]);
      var k :| 0 <= k < |lists| && lists[k] == given[i];
    }
  }

  lemma IdBytes(ids: seq<XattrId>)
    ensures |Flatten(EncodeXattrIds(ids))| == 16 * |ids|
  {
    RowsSize(EncodeXattrIds(ids), 16);
  }

  /** What a modest store takes in the image. */
  lemma XattrRoom(p: Packer, base: nat, m: Meta, ids: seq<XattrId>)
    requires Full(m.blocks)
    ensures |EncodeBlocks(p, Close(m))| <= 3 * |Stream(m)|
    ensures |EncodeBlocks(p, Close(m))| <= |XattrBytes(p, base, m, ids)| <= 3 * |Stream(m)| + 176 * |ids| + 16
  {
    hide EncodeBlocks, Close, Stream, Flatten, EncodeXattrIds, TableBytes, Header;
    CloseStream(m);
    EncodeRoom(p, Close(m));
    IdBytes(ids);
    TableRoom(p, base + |EncodeBlocks(p, Close(m))|, Flatten(EncodeXattrIds(ids)), Header(base, |ids|));
  }

  lemma FitsSmall(p: Packer, m: Meta, ids: seq<XattrId>, layouts: seq<Layout>, given: seq<seq<Xattr>>,
                  lists: seq<seq<Xattr>>, image0: seq<byte>, image: seq<byte>)
    requires Full(m.blocks) && ListsOk(p, m, ids, layouts, given) && |Stream(m)| <= RoomAll(lists)
    requires |given| <= |lists| && (forall i :: 0 <= i < |given| ==> given[i] in lists)
    requires forall k :: 0 <= k < |lists| ==> lists[k] != []
    requires image == image0 + XattrBytes(p, |image0|, m, ids) && Fits(lists, |image0|, |image|)
    ensures Small(p, m, ids, image)
  {
    hide EncodeBlocks, Close, Stream, ListsOk, XattrBytes, RoomAll, ListsSmall, Full;
    XattrRoom(p, |image0|, m, ids);
    SameCount(p, m, ids, layouts, given);
    Spans();
    if Modest(lists, |image0|) {
      ModestSmall(lists, |image0|);
      RoomCount(lists);
    }
    CountsSmall(p, m, ids, layouts, given, lists);
  }

  /** The list a reader finds under an id. */
  function LookedUp(c: Codec, image: seq<byte>, start: Option<nat>, id: nat): Option<seq<Xattr>>
  {
    if start.None? then None else
    match ReadXattrs(c, image, start.value)
    case None => None
    case Some(x) => ListAtId(x, id)
  }

  lemma GivenLookedUp(c: Codec, image: seq<byte>, start: Option<nat>, lists: seq<seq<Xattr>>, id: nat)
    requires Gives(c, image, start, lists) && id < |lists|
    ensures LookedUp(c, image, start, id) == Some(lists[id])
  {
    hide ReadXattrs, ListAtId;
  }

  const EMPTY_BOOK: Book := Book(map[], [])

  /** The list of call k was not merged with an earlier one, or with one whose values have the
      same lengths. */
  ghost predicate MergedWell(xss: seq<seq<Xattr>>, k: nat, beyond: (seq<byte>, seq<byte>) -> bool)
    requires k < |xss|
  {
    match Match(EnterAll(EMPTY_BOOK, xss[..k], beyond).lists, xss[k], beyond)
    case None => true
    case Some(e) => SameLengths(xss[k], e.list)
  }

  /** write_xattrs for a store, and what it gives when read. */
  method WriteStore(store: Store, image0: seq<byte>) returns (image: seq<byte>, start: Option<nat>)
    requires store.Valid() && Lossless(store.w.packer.codec)
    modifies store.w
    ensures store.ids == [] ==> image == image0
    ensures store.ids != [] ==> image == image0 + XattrBytes(store.w.packer, |image0|, old(store.w.meta), store.ids)
    ensures store.ids == [] || Small(store.w.packer, old(store.w.meta), store.ids, image) ==>
            Gives(store.w.packer.codec, image, start, store.given)
  {
    hide EncodeBlocks, Close, Gives, Lossless, ListsOk, CellsOk, ChainsOk, IdsOk, XattrBytes, Span, XattrStart;
    ghost var p, m, ids, given := store.w.packer, store.w.meta, store.ids, store.given;
    SameCount(p, m, ids, store.layouts, given);
    image, start := WriteXattrs(store.w, store.ids, image0);
    if ids == [] {
      NoLists(p.codec, image, given);
    } else if Small(p, m, ids, image) {
      HoldsEnd(image0, XattrBytes(p, |image0|, m, ids));
      XattrsComeBack(p, m, ids, store.layouts, given, image, |image0|);
    }
  }

  lemma NoLists(c: Codec, image: seq<byte>, given: seq<seq<Xattr>>)
    requires given == []
    ensures Gives(c, image, None, given)
  {
  }

  lemma HoldsEnd(a: seq<byte>, b: seq<byte>)
    ensures Holds(a + b, |a|, b)
  {
  }

  /** The lists of the ids are among those entered. */
  lemma {:induction false} EnteredFrom(xss: seq<seq<Xattr>>, beyond: (seq<byte>, seq<byte>) -> bool)
    ensures var given := EnterAll(EMPTY_BOOK, xss, beyond).given;
            |given| <= |xss| && forall i :: 0 <= i < |given| ==> given[i] in xss
    decreases |xss|
  {
    hide Match, ListSum, ListChain;
    if xss != [] {
      var n := |xss| - 1;
      EnteredFrom(xss[..n], beyond);
      assert forall x :: x in xss[..n] ==> x in xss;
    }
  }

  /** A run of generate_xattrs calls, write_xattrs and reading back: the id of call k leads to
      its list exactly when the list was merged well. */
  method XattrRoundTrip(p: Packer, xss: seq<seq<Xattr>>, beyond: (seq<byte>, seq<byte>) -> bool, image0: seq<byte>)
    returns (image: seq<byte>, start: Option<nat>, out: seq<nat>)
    requires Lossless(p.codec) && forall k :: 0 <= k < |xss| ==> AllStorable(xss[k]) && xss[k] != []
    ensures |out| == |xss| && image0 <= image && |image| <= |image0| + 3 * RoomAll(xss) + 176 * |xss| + 16
    ensures Fits(xss, |image0|, |image|) ==>
              forall k :: 0 <= k < |xss| ==>
                (LookedUp(p.codec, image, start, out[k]) == Some(xss[k]) <==> MergedWell(xss, k, beyond))
  {
    hide EncodeBlocks, Gives, Lossless, EnterAll, IdFor, Small, LookedUp, MergedWell, AllStorable, ListsOk, CellsOk,
      ChainsOk, IdsOk, XattrBytes, Fits, Stream, RoomAll, Full;
    var store;
    store, out := GenerateAll(p, xss, beyond);
    ghost var m, ids, layouts := store.w.meta, store.ids, store.layouts;
    image, start := WriteStore(store, image0);
    ghost var given := EnterAll(EMPTY_BOOK, xss, beyond).given;
    EnteredFrom(xss, beyond);
    SameCount(p, m, ids, layouts, given);
    XattrRoom(p, |image0|, m, ids);
    if Fits(xss, |image0|, |image|) {
      if ids != [] {
        FitsSmall(p, m, ids, layouts, given, xss, image0, image);
      }
      forall k | 0 <= k < |xss|
        ensures LookedUp(p.codec, image, start, out[k]) == Some(xss[k]) <==> MergedWell(xss, k, beyond)
      {
        WellMerged(xss, k, beyond);
        GivenLookedUp(p.codec, image, start, given, out[k]);
      }
    }
  }

  lemma WellMerged(xss: seq<seq<Xattr>>, k: nat, beyond: (seq<byte>, seq<byte>) -> bool)
    requires k < |xss|
    ensures var id, given := IdFor(EnterAll(EMPTY_BOOK, xss[..k], beyond), xss[k], beyond),
            EnterAll(EMPTY_BOOK, xss, beyond).given;
            id < |given| && (given[id] == xss[k] <==> MergedWell(xss, k, beyond))
  {
    hide EnterAll, Match, SameLengths;
    IdMeansList(xss, k, beyond);
  }

  // ---------- appending and giving up ----------

  /** Entered in order, every list gets an id of its own. */
  ghost predicate NoneMerged(lists: seq<seq<Xattr>>, beyond: (seq<byte>, seq<byte>) -> bool)
  {
    forall i :: 0 <= i < |lists| ==> Alone(lists, i, beyond)
  }

  ghost predicate Alone(lists: seq<seq<Xattr>>, i: nat, beyond: (seq<byte>, seq<byte>) -> bool)
    requires i < |lists|
  {
    Match(EnterAll(EMPTY_BOOK, lists[..i], beyond).lists, lists[i], beyond) == None
  }

  /** The lists of the ids of any run, entered again in order, lead to the same book: every id is
      the one it was. */
  lemma {:induction false} Replay(xss: seq<seq<Xattr>>, beyond: (seq<byte>, seq<byte>) -> bool)
    ensures var b := EnterAll(EMPTY_BOOK, xss, beyond);
            EnterAll(EMPTY_BOOK, b.given, beyond) == b && NoneMerged(b.given, beyond)
    decreases |xss|
  {
    hide Match, ListSum, ListChain;
    if xss != [] {
      var n := |xss| - 1;
      var b := EnterAll(EMPTY_BOOK, xss[..n], beyond);
      Replay(xss[..n], beyond);
      if Match(b.lists, xss[n], beyond).None? {
        var given := b.given + [xss[n]];
        assert given[..|b.given|] == b.given;
        forall i | 0 <= i < |given|
          ensures Alone(given, i, beyond)
        {
          if i < |b.given| {
            assert Alone(b.given, i, beyond);
            assert given[..i] == b.given[..i];
          }
        }
      }
    }
  }

  lemma AloneNext(lists: seq<seq<Xattr>>, i: nat, b: Book, beyond: (seq<byte>, seq<byte>) -> bool)
    requires i < |lists| && b == EnterAll(EMPTY_BOOK, lists[..i], beyond) && b.given == lists[..i]
    ensures EnterAll(EMPTY_BOOK, lists[..i + 1], beyond) == Enter(b, lists[i], beyond)
    ensures IdFor(b, lists[i], beyond) == i && IdsOk(b.lists, b.given) ==> Alone(lists, i, beyond)
    ensures Alone(lists, i, beyond) ==>
              IdFor(b, lists[i], beyond) == i && Enter(b, lists[i], beyond).given == lists[..i + 1]
  {
    hide ListSum, ListChain, EnterAll;
    EnterNext(EMPTY_BOOK, lists, i, beyond);
    if Match(b.lists, lists[i], beyond).Some? && IdsOk(b.lists, b.given) {
      FoundEntry(b.lists, b.given, lists[i], beyond);
    }
    TakeNext(lists, i);
  }

  /** get_xattrs: every list of the image is read and generated again, and must get its old id. */
  method GetXattrs(p: Packer, image: seq<byte>, start: Option<nat>, beyond: (seq<byte>, seq<byte>) -> bool,
                   ghost lists: seq<seq<Xattr>>)
    returns (r: Option<Store>)
    requires Gives(p.codec, image, start, lists) && forall k :: 0 <= k < |lists| ==>
               AllStorable(lists[k]) && lists[k] != []
    ensures r.Some? <==> NoneMerged(lists, beyond)
    ensures r.Some? ==>
              fresh(r.value) && fresh(r.value.w) && r.value.Valid() && r.value.given == lists
    ensures r.Some? ==> r.value.w.packer == p && |Stream(r.value.w.meta)| <= RoomAll(lists)
  {
    hide ReadXattrs, EnterAll, Enter, IdFor, Alone, AllStorable, ListsOk, CellsOk, ChainsOk, DecodeId, Grows, Full,
      EncodeBlocks, Stream, RoomAll, Room;
    var store := new Store(p);
    NothingStored(lists);
    if start.None? {
      return Some(store);
    }
    var loaded := ReadXattrsFromDisk(p.codec, image, start.value);
    var x := loaded.value;
    EnterNone(EMPTY_BOOK, lists, beyond);
    for i := 0 to |x.ids|
      invariant fresh(store) && fresh(store.w) && store.Valid() && store.w.packer == p && store.given == lists[..i]
      invariant Book(store.lists, store.given) == EnterAll(EMPTY_BOOK, lists[..i], beyond)
      invariant |Stream(store.w.meta)| <= RoomAll(lists[..i])
      invariant forall k :: 0 <= k < i ==> Alone(lists, k, beyond)
    {
      assert ListAtId(x, i) == Some(lists[i]);
      var list := GetXattr(x.table, x.base, x.ids[i]);
      AloneNext(lists, i, Book(store.lists, store.given), beyond);
      RoomNext(lists, i);
      var id := GenerateOne(store, list.value, beyond);
      if id != i {
        return None;
      }
    }
    TakeAll(lists);
    r := Some(store);
  }

  /** An append that is given up after the lists `added` and anywhere inside a further call: the
      image written then gives the old lists again, under their old ids. */
  method AbortXattrs(p: Packer, prior: seq<byte>, oldStart: Option<nat>, added: seq<seq<Xattr>>,
                     moves: seq<Append.Move>, beyond: (seq<byte>, seq<byte>) -> bool, image0: seq<byte>,
                     ghost lists: seq<seq<Xattr>>)
    returns (r: Option<(seq<byte>, Option<nat>)>)
    requires Lossless(p.codec) && Gives(p.codec, prior, oldStart, lists)
    requires forall k :: 0 <= k < |lists| ==> AllStorable(lists[k]) && lists[k] != []
    requires forall k :: 0 <= k < |added| ==> AllStorable(added[k]) && added[k] != []
    ensures r.Some? <==> NoneMerged(lists, beyond)
    ensures r.Some? ==> image0 <= r.value.0 && |r.value.0| <= |image0| + 3 * RoomAll(lists) + 176 * |lists| + 16
    ensures r.Some? && Fits(lists, |image0|, |r.value.0|) ==> Gives(p.codec, r.value.0, r.value.1, lists)
  {
    hide Gives, AllStorable, ListsOk, CellsOk, ChainsOk, IdsOk, Enter, IdFor, NoneMerged, Append.Do, EncodeBlocks, Full,
      Lossless;
    hide XattrBytes, XattrStart, Span, Close, Fits, RoomAll, Stream;
    var found := GetXattrs(p, prior, oldStart, beyond, lists);
    if found.None? {
      return None;
    }
    var store := found.value;
    // save_xattrs
    var sbytes, scache, sids := |store.w.table|, store.w.cache, |store.ids|;
    ghost var m, ids, layouts, table := store.w.meta, store.ids, store.layouts, store.w.table;
    SameCount(p, m, ids, layouts, lists);
    GrowsRefl(m);
    for i := 0 to |added|
      invariant fresh(store) && fresh(store.w) && store.Valid() && store.w.packer == p && Grows(m, store.w.meta) &&
                ids <= store.ids
    {
      ghost var before := store.w.meta;
      var _ := GenerateOne(store, added[i], beyond);
      GrowsTrans(m, before, store.w.meta);
    }
    var s, all := Append.Building(store.w.table, store.w.cache), store.ids;
    ghost var s0, m' := s, store.w.meta;
    for i := 0 to |moves|
      invariant s == Append.DoAll(p, s0, moves[..i])
    {
      s := Append.Do(p, s, moves[i]);
      TakeTake(moves, i, i + 1);
    }
    Append.TableGrows(p, s0, moves[..|moves|]);
    EncodeGrows(p, m.blocks, m'.blocks);
    // restore_xattrs
    var back := s.table[..sbytes];
    assert back == table;
    var w := new Writer.Resume(p, back, scache, m.blocks);
    var kept := all[..sids];
    assert kept == ids;
    var image, start := WriteXattrs(w, kept, image0);
    XattrRoom(p, |image0|, m, ids);
    if ids == [] {
      NoLists(p.codec, image, lists);
    } else if Fits(lists, |image0|, |image|) {
      FitsSmall(p, m, ids, layouts, lists, lists, image0, image);
      HoldsEnd(image0, XattrBytes(p, |image0|, m, ids));
      XattrsComeBack(p, m, ids, layouts, lists, image, |image0|);
    }
    r := Some((image, start));
  }

  lemma EncodeGrows(p: Packer, a: seq<seq<byte>>, b: seq<seq<byte>>)
    requires a <= b
    ensures EncodeBlocks(p, a) <= EncodeBlocks(p, b)
  {
    hide EncodeBlocks;
    Append.PrefixTable(p, b, |a|);
    assert b[..|a|] == a;
  }
}
