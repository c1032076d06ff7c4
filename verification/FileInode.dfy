/** Inodes of regular files: the choice between the short and the long form, their bytes,
    and what unsquashfs reads back. */
module FileInode {
  import opened Bytes

  const INVALID_FRAG: nat := 0xffff_ffff
  const INVALID_XATTR: nat := 0xffff_ffff
  const FILE_TYPE: nat := 2
  const LREG_TYPE: nat := 9

  // ---------- records of little-endian fields ----------

  datatype Field = Field(value: nat, width: nat)

  function Record(fs: seq<Field>): seq<byte>
  {
    if fs == [] then [] else PutLe(fs[0].value, fs[0].width) + Record(fs[1..])
  }

  function Offset(fs: seq<Field>, i: nat): nat
    requires i <= |fs|
  {
    if i == 0 then 0 else fs[0].width + Offset(fs[1..], i - 1)
  }

  lemma {:induction false} RecordField(fs: seq<Field>, rest: seq<byte>, i: nat)
    requires i < |fs| && fs[i].value < Span(fs[i].width)
    ensures var s, a := Record(fs) + rest, Offset(fs, i);
            a + fs[i].width <= |s| && GetLe(s[a..a + fs[i].width]) == fs[i].value
    decreases |fs|
  {
    var first := PutLe(fs[0].value, fs[0].width);
    var tail := Record(fs[1..]) + rest;
    assert Record(fs) + rest == first + tail;
    if i == 0 {
      assert (first + tail)[0..fs[0].width] == first;
      LeRoundTrip(fs[0].value, fs[0].width);
    } else {
      RecordField(fs[1..], rest, i - 1);
      var a, w := Offset(fs[1..], i - 1), fs[i].width;
      assert (first + tail)[|first| + a..|first| + a + w] == tail[a..a + w];
    }
  }

  lemma {:induction false} RecordSize(fs: seq<Field>)
    ensures |Record(fs)| == Offset(fs, |fs|)
  {
    if fs != [] {
      RecordSize(fs[1..]);
    }
  }

  // ---------- the inode ----------

  /** What create_inode is given for a regular file; no fragment is None. */
  datatype Request = Request(mode: nat, uid: nat, gid: nat, mtime: nat, number: nat, nlink: nat, xattr: nat,
                             size: nat, start: nat, words: seq<nat>, fragment: Option<(nat, nat)>, sparse: nat)

  /** The long form is used for links, big files, far starts, sparse files and xattrs. */
  predicate NeedsLong(r: Request)
  {
    r.nlink > 1 || r.size >= 0x1_0000_0000 || r.start >= 0x1_0000_0000 || r.sparse != 0 || r.xattr != INVALID_XATTR
  }

  function FragIndex(r: Request): nat { if r.fragment.Some? then r.fragment.value.0 else INVALID_FRAG }
  function FragOffset(r: Request): nat { if r.fragment.Some? then r.fragment.value.1 else 0 }

  /** The sparse count stays below the file size. */
  function Clamped(r: Request): int { if r.sparse != 0 && r.sparse >= r.size then r.size - 1 else r.sparse }

  function Base(r: Request, kind: nat): seq<Field>
  {
    [Field(kind, 2), Field(r.mode, 2), Field(r.uid, 2), Field(r.gid, 2), Field(r.mtime, 4), Field(r.number, 4)]
  }

  function ShortFields(r: Request): seq<Field>
  {
    Base(r, FILE_TYPE) + [Field(r.start, 4), Field(FragIndex(r), 4), Field(FragOffset(r), 4), Field(r.size, 4)]
  }

  function LongFields(r: Request): seq<Field>
    requires r.sparse != 0 ==> r.size > 0
  {
    Base(r, LREG_TYPE) + [Field(r.start, 8), Field(r.size, 8), Field(Clamped(r), 8), Field(r.nlink, 4),
                          Field(FragIndex(r), 4), Field(FragOffset(r), 4), Field(r.xattr, 4)]
  }

  function Words(ws: seq<nat>): seq<Field>
  {
    if ws == [] then [] else [Field(ws[0], 4)] + Words(ws[1..])
  }

  function Encode(r: Request): seq<byte>
    requires r.sparse != 0 ==> r.size > 0
  {
    Record(if NeedsLong(r) then LongFields(r) else ShortFields(r)) + Record(Words(r.words))
  }

  ghost predicate Fits(r: Request)
  {
    r.mode < 0x1_0000 && r.uid < 0x1_0000 && r.gid < 0x1_0000 && r.mtime < 0x1_0000_0000 && r.number < 0x1_0000_0000 &&
    r.nlink < 0x1_0000_0000 && r.xattr < 0x1_0000_0000 && r.size < 0x8000_0000_0000_0000 &&
      r.start < 0x8000_0000_0000_0000 &&
    (r.fragment.Some? ==> r.fragment.value.0 < INVALID_FRAG && r.fragment.value.1 < 0x1_0000_0000) &&
    r.sparse < 0x8000_0000_0000_0000 && (r.sparse != 0 ==> r.size > 0) &&
    forall i :: 0 <= i < |r.words| ==> r.words[i] < 0x1_0000_0000
  }

  /** What read_inode_4 hands on. */
  datatype Inode = Inode(data: nat, fragBytes: nat, fragment: nat, offset: nat, blocks: nat, start: nat, sparse: bool,
                         xattr: nat, list: nat)

  function Get(s: seq<byte>, a: nat, width: nat): nat
    requires a + width <= |s|
  {
    GetLe(s[a..a + width])
  }

  function Decode(s: seq<byte>, block: nat): Option<Inode>
    requires block > 0
  {
    if |s| < 32 then None
    else if Get(s, 0, 2) == FILE_TYPE then
      var size, frag := Get(s, 28, 4), Get(s, 20, 4);
      Some(Inode(size, FragBytes(size, frag, block), frag, Get(s, 24, 4), BlockCount(size, frag, block), Get(s, 16, 4),
                 false, INVALID_XATTR, 32))
    else if Get(s, 0, 2) == LREG_TYPE && |s| >= 56 then
      var size, frag := Get(s, 24, 8), Get(s, 44, 4);
      Some(Inode(size, FragBytes(size, frag, block), frag, Get(s, 48, 4), BlockCount(size, frag, block), Get(s, 16, 8),
                 Get(s, 32, 8) != 0, Get(s, 52, 4), 56))
    else None
  }

  function FragBytes(size: nat, frag: nat, block: nat): nat
    requires block > 0
  {
    if frag == INVALID_FRAG then 0 else Rest(size, block)
  }

  function BlockCount(size: nat, frag: nat, block: nat): nat
    requires block > 0
  {
    if frag == INVALID_FRAG then Quotient(size + block - 1, block) else Quotient(size, block)
  }

  function Quotient(x: nat, block: nat): nat
    requires block > 0
  {
    x / block
  }

  function Rest(x: nat, block: nat): nat
    requires block > 0
  {
    x % block
  }

  lemma {:induction false} OffsetNext(fs: seq<Field>, i: nat)
    requires i < |fs|
    ensures Offset(fs, i + 1) == Offset(fs, i) + fs[i].width
    decreases |fs|
  {
    if i > 0 {
      OffsetNext(fs[1..], i - 1);
    }
  }

  lemma ShortOffsets(r: Request)
    ensures var fs := ShortFields(r);
            |fs| == 10 && Offset(fs, 0) == 0 && Offset(fs, 6) == 16 && Offset(fs, 7) == 20 && Offset(fs, 8) == 24 &&
            Offset(fs, 9) == 28 && Offset(fs, 10) == 32
  {
    var fs := ShortFields(r);
    assert forall k :: 0 <= k < 10 ==> fs[k].width == if k < 4 then 2 else 4;
    hide ShortFields;
    OffsetNext(fs, 0); OffsetNext(fs, 1); OffsetNext(fs, 2); OffsetNext(fs, 3); OffsetNext(fs, 4);
    OffsetNext(fs, 5); OffsetNext(fs, 6); OffsetNext(fs, 7); OffsetNext(fs, 8); OffsetNext(fs, 9);
  }

  lemma LongOffsets(r: Request)
    requires r.sparse != 0 ==> r.size > 0
    ensures var fs := LongFields(r);
            |fs| == 13 && Offset(fs, 0) == 0 && Offset(fs, 6) == 16 && Offset(fs, 7) == 24 && Offset(fs, 8) == 32 &&
            Offset(fs, 10) == 44 && Offset(fs, 11) == 48 && Offset(fs, 12) == 52 && Offset(fs, 13) == 56
  {
    var fs := LongFields(r);
    assert forall k :: 0 <= k < 13 ==> fs[k].width == if k < 4 then 2 else if 6 <= k <= 8 then 8 else 4;
    hide LongFields;
    OffsetNext(fs, 0); OffsetNext(fs, 1); OffsetNext(fs, 2); OffsetNext(fs, 3); OffsetNext(fs, 4); OffsetNext(fs, 5);
    OffsetNext(fs, 6); OffsetNext(fs, 7); OffsetNext(fs, 8); OffsetNext(fs, 9); OffsetNext(fs, 10); OffsetNext(fs, 11);
    OffsetNext(fs, 12);
  }

  /** Whatever form was chosen, the size, start, fragment, block count, sparse flag and
      xattr id come back. */
  lemma DecodeBack(r: Request, block: nat)
    requires Fits(r) && block > 0
    ensures var d := Decode(Encode(r), block);
            d.Some? && d.value.data == r.size && d.value.start == r.start && d.value.fragment == FragIndex(r) &&
            d.value.offset == FragOffset(r) && d.value.fragBytes == FragBytes(r.size, FragIndex(r), block) &&
            d.value.blocks == BlockCount(r.size, FragIndex(r), block) && d.value.sparse == (Clamped(r) != 0) &&
            d.value.xattr == r.xattr && d.value.list == if NeedsLong(r) then 56 else 32
  {
    Spans();
    if NeedsLong(r) {
      LongBack(r);
    } else {
      ShortBack(r);
    }
    hide Encode, Get, FragBytes, BlockCount;
  }

  lemma ShortBack(r: Request)
    requires Fits(r) && !NeedsLong(r)
    ensures var s := Encode(r);
            |s| >= 32 && Get(s, 0, 2) == FILE_TYPE && Get(s, 16, 4) == r.start && Get(s, 20, 4) == FragIndex(r) &&
            Get(s, 24, 4) == FragOffset(r) && Get(s, 28, 4) == r.size
  {
    Spans();
    var fs, rest := ShortFields(r), Record(Words(r.words));
    ShortOffsets(r);
    RecordSize(fs);
    assert fs[0] == Field(FILE_TYPE, 2) && fs[6] == Field(r.start, 4) && fs[7] == Field(FragIndex(r), 4);
    assert fs[8] == Field(FragOffset(r), 4) && fs[9] == Field(r.size, 4);
    hide ShortFields, Record, Offset, GetLe, Span;
    RecordField(fs, rest, 0);
    RecordField(fs, rest, 6);
    RecordField(fs, rest, 7);
    RecordField(fs, rest, 8);
    RecordField(fs, rest, 9);
  }

  lemma LongBack(r: Request)
    requires Fits(r) && NeedsLong(r)
    ensures var s := Encode(r);
            |s| >= 56 && Get(s, 0, 2) == LREG_TYPE && Get(s, 16, 8) == r.start && Get(s, 24, 8) == r.size &&
            Get(s, 32, 8) == Clamped(r) && Get(s, 44, 4) == FragIndex(r) && Get(s, 48, 4) == FragOffset(r) &&
              Get(s, 52, 4) == r.xattr
  {
    Spans();
    var fs, rest := LongFields(r), Record(Words(r.words));
    LongOffsets(r);
    RecordSize(fs);
    assert fs[0] == Field(LREG_TYPE, 2) && fs[6] == Field(r.start, 8) && fs[7] == Field(r.size, 8) &&
           fs[8] == Field(Clamped(r), 8);
    assert fs[10] == Field(FragIndex(r), 4) && fs[11] == Field(FragOffset(r), 4) && fs[12] == Field(r.xattr, 4);
    hide LongFields, Record, Offset, GetLe, Span;
    RecordField(fs, rest, 0);
    RecordField(fs, rest, 6);
    RecordField(fs, rest, 7);
    RecordField(fs, rest, 8);
    RecordField(fs, rest, 10);
    RecordField(fs, rest, 11);
    RecordField(fs, rest, 12);
  }

  lemma {:induction false} WordsField(ws: seq<nat>, i: nat)
    requires i < |ws|
    ensures |Words(ws)| == |ws| && Words(ws)[i] == Field(ws[i], 4) && Offset(Words(ws), i) == 4 * i
    decreases |ws|
  {
    if |ws| > 1 {
      WordsField(ws[1..], if i > 0 then i - 1 else 0);
    }
    if i > 0 {
      assert Words(ws)[1..] == Words(ws[1..]);
    }
  }

  /** The size words follow the header. */
  lemma WordBack(r: Request, i: nat)
    requires Fits(r) && i < |r.words|
    ensures var s, a := Encode(r), (if NeedsLong(r) then 56 else 32) + 4 * i;
            a + 4 <= |s| && Get(s, a, 4) == r.words[i]
  {
    Spans();
    hide ShortFields, LongFields, NeedsLong, Record, GetLe, Offset;
    var fs := if NeedsLong(r) then LongFields(r) else ShortFields(r);
    ShortOffsets(r);
    LongOffsets(r);
    RecordSize(fs);
    var ws := Words(r.words);
    WordsField(r.words, i);
    RecordField(ws, [], i);
    var h, w := Record(fs), Record(ws);
    assert w + [] == w;
    SecondPart(h, w, 4 * i, 4 * i + 4);
  }

  lemma SecondPart(h: seq<byte>, w: seq<byte>, a: nat, b: nat)
    requires a <= b <= |w|
    ensures (h + w)[|h| + a..|h| + b] == w[a..b]
  {
  }
}
