/** The xattr store: each file's list of names and values is written once, values go
    inline or out of line, equal values share one copy, and equal lists share one id.
    Reading an id back follows the references. */
module Xattrs {
  import opened Bytes
  import opened Compressor
  import opened Metadata

  const OOL_SIZE: nat := 8
  const INLINE_MAX: nat := 128
  const TARGET_MAX: nat := 65536
  const VALUE_OOL: nat := 256

  datatype Xattr = Xattr(name: seq<byte>, value: seq<byte>)

  // ---------- name prefixes ----------

  /** "user.", "trusted." and "security.", in the order of their type numbers. */
  function Prefix(kind: nat): (s: seq<byte>)
    requires kind < 3
    ensures s != []
  {
    if kind == 0 then [117, 115, 101, 114, 46]
    else if kind == 1 then [116, 114, 117, 115, 116, 101, 100, 46]
    else [115, 101, 99, 117, 114, 105, 116, 121, 46]
  }

  function PrefixFrom(name: seq<byte>, kind: nat): (r: Option<nat>)
    requires kind <= 3
    ensures r.Some? ==> r.value < 3 && Prefix(r.value) <= name
    decreases 3 - kind
  {
    if kind == 3 then None else if Prefix(kind) <= name then Some(kind) else PrefixFrom(name, kind + 1)
  }

  /** get_prefix: the type number of a full name, if its prefix is known. */
  function KindOf(name: seq<byte>): (r: Option<nat>)
    ensures r.Some? ==> r.value < 3 && Prefix(r.value) <= name
  {
    PrefixFrom(name, 0)
  }

  /** What the format can hold: a known prefix, 16-bit name and 32-bit value lengths. */
  ghost predicate Storable(x: Xattr)
  {
    KindOf(x.name).Some? && |x.name| < 0x1_0000 && |x.value| < 0x1_0000_0000
  }

  ghost predicate AllStorable(xs: seq<Xattr>)
  {
    forall i :: 0 <= i < |xs| ==> Storable(xs[i])
  }

  // ---------- the encoding of one list ----------

  /** An entry as written: its value inline, or a reference to a copy elsewhere. */
  datatype Item = Item(x: Xattr, ool: Option<Ref>)

  /** The type number and the rest of a name; of an unknown name, nothing sensible. */
  function Kind(name: seq<byte>): (kind: nat)
    ensures kind < 3
  {
    if KindOf(name).Some? then KindOf(name).value else 0
  }

  function Suffix(name: seq<byte>): seq<byte>
  {
    if KindOf(name).Some? then name[|Prefix(KindOf(name).value)|..] else []
  }

  function EncodeValue(value: seq<byte>): seq<byte>
  {
    PutLe(|value|, 4) + value
  }

  function EncodeName(it: Item): (s: seq<byte>)
    ensures |s| == 4 + |Suffix(it.x.name)|
  {
    PutLe(Kind(it.x.name) + (if it.ool.Some? then VALUE_OOL else 0), 2)
    + PutLe(|Suffix(it.x.name)|, 2) + Suffix(it.x.name)
  }

  function EncodeBody(it: Item): seq<byte>
  {
    match it.ool
    case Some(r) => PutLe(OOL_SIZE, 4) + PutLe(MkInode(r), 8)
    case None => EncodeValue(it.x.value)
  }

  function EncodeItem(it: Item): seq<byte>
  {
    EncodeName(it) + EncodeBody(it)
  }

  ghost predicate ItemsStorable(items: seq<Item>)
  {
    forall i :: 0 <= i < |items| ==> Storable(items[i].x)
  }

  function EncodeItems(items: seq<Item>): seq<byte>
  {
    if items == [] then [] else EncodeItems(items[..|items| - 1]) + EncodeItem(items[|items| - 1])
  }

  // ---------- where things stand in the xattr stream ----------

  /** A value stands at stream position q, and r is the reference to it. */
  ghost predicate ValueAt(p: Packer, m: Meta, r: Ref, value: seq<byte>)
  {
    r.offset < BLOCK && exists q :: Names(p, m.blocks, r, q) && Holds(Stream(m), q, EncodeValue(value))
  }

  ghost predicate ItemRight(p: Packer, m: Meta, it: Item)
  {
    it.ool.Some? ==> ValueAt(p, m, it.ool.value, it.x.value)
  }

  /** Where a list is and how its items were laid out. */
  datatype Layout = Layout(at: nat, items: seq<Item>)

  function ListOf(items: seq<Item>): (xs: seq<Xattr>)
    ensures |xs| == |items| && forall i :: 0 <= i < |items| ==> xs[i] == items[i].x
  {
    if items == [] then [] else ListOf(items[..|items| - 1]) + [items[|items| - 1].x]
  }

  /** Where a list begins, how many entries it has, and how many bytes listing it takes. */
  datatype XattrId = XattrId(ref: Ref, count: nat, size: nat)

  /** The names with their ends, and the values. */
  function ListSize(xs: seq<Xattr>): nat
  {
    if xs == [] then 0 else ListSize(xs[..|xs| - 1]) + |xs[|xs| - 1].name| + 1 + |xs[|xs| - 1].value|
  }

  /** The list of an id stands where the id says, and its references lead to its values. */
  ghost predicate ListAt(p: Packer, m: Meta, id: XattrId, l: Layout, xs: seq<Xattr>)
  {
    && ItemsStorable(l.items) && xs == ListOf(l.items) && xs != [] && id.count == |xs| && id.size == ListSize(xs)
    && id.ref.offset < BLOCK && Names(p, m.blocks, id.ref, l.at)
    && Holds(Stream(m), l.at, EncodeItems(l.items))
    && forall i :: 0 <= i < |l.items| ==> ItemRight(p, m, l.items[i])
  }

  /** Appending to the stream moves nothing. */
  ghost predicate Grows(a: Meta, b: Meta)
  {
    a.blocks <= b.blocks && Stream(a) <= Stream(b)
  }

  lemma PutGrows(m: Meta, data: seq<byte>)
    ensures Grows(m, Put(m, data)) && Stream(Put(m, data)) == Stream(m) + data
  {
    hide Flush;
    PutStream(m, data);
  }

  lemma GrowsTrans(a: Meta, b: Meta, c: Meta)
    requires Grows(a, b) && Grows(b, c)
    ensures Grows(a, c)
  {
  }

  lemma NamesGrows(p: Packer, a: seq<seq<byte>>, b: seq<seq<byte>>, r: Ref, q: nat)
    requires a <= b && Names(p, a, r, q)
    ensures Names(p, b, r, q)
  {
    hide EncodeBlocks;
    assert b[..q / BLOCK] == a[..q / BLOCK];
  }

  lemma HoldsPrefix(a: seq<byte>, b: seq<byte>, q: nat, part: seq<byte>)
    requires a <= b && Holds(a, q, part)
    ensures Holds(b, q, part)
  {
    assert b == a + b[|a|..];
    HoldsGrow(a, b[|a|..], q, part);
  }

  lemma ValueGrows(p: Packer, a: Meta, b: Meta, r: Ref, value: seq<byte>)
    requires Grows(a, b) && ValueAt(p, a, r, value)
    ensures ValueAt(p, b, r, value)
  {
    hide Names, EncodeValue;
    var q :| Names(p, a.blocks, r, q) && Holds(Stream(a), q, EncodeValue(value));
    NamesGrows(p, a.blocks, b.blocks, r, q);
    HoldsPrefix(Stream(a), Stream(b), q, EncodeValue(value));
  }

  lemma ListGrows(p: Packer, a: Meta, b: Meta, id: XattrId, l: Layout, xs: seq<Xattr>)
    requires Grows(a, b) && ListAt(p, a, id, l, xs)
    ensures ListAt(p, b, id, l, xs)
  {
    hide Names, EncodeItems, ValueAt, Storable, ListSize;
    NamesGrows(p, a.blocks, b.blocks, id.ref, l.at);
    HoldsPrefix(Stream(a), Stream(b), l.at, EncodeItems(l.items));
    forall i | 0 <= i < |l.items|
      ensures ItemRight(p, b, l.items[i])
    {
      assert ItemRight(p, a, l.items[i]);
      if l.items[i].ool.Some? {
        ValueGrows(p, a, b, l.items[i].ool.value, l.items[i].x.value);
      }
    }
  }

  // ---------- reading an id back ----------

  function ReadValue(s: seq<byte>, q: nat): (r: Option<seq<byte>>)
  {
    if q + 4 > |s| then None else
    var n := GetLe(s[q..q + 4]);
    if q + 4 + n > |s| then None else Some(s[q + 4..q + 4 + n])
  }

  /** read_xattr_entry and the value that belongs to it; also the next entry's place. */
  function DecodeItem(t: Table, base: nat, q: nat): Option<(Xattr, nat)>
  {
    var s := t.bytes;
    if q + 4 > |s| then None else
    var kind, size := GetLe(s[q..q + 2]), GetLe(s[q + 2..q + 4]);
    if kind % 256 >= 3 || q + 4 + size > |s| then None else
    var name := Prefix(kind % 256) + s[q + 4..q + 4 + size];
    var body := q + 4 + size;
    if kind / VALUE_OOL % 2 == 1 then
      if body + 12 > |s| then None else
      match Resolve(t, base, GetLe(s[body + 4..body + 12]))
      case None => None
      case Some(v) =>
        match ReadValue(s, v)
        case None => None
        case Some(value) => Some((Xattr(name, value), body + 12))
    else
      match ReadValue(s, body)
      case None => None
      case Some(value) => Some((Xattr(name, value), body + 4 + |value|))
  }

  function DecodeItems(t: Table, base: nat, q: nat, count: nat): Option<seq<Xattr>>
    decreases count
  {
    if count == 0 then Some([]) else
    match DecodeItem(t, base, q)
    case None => None
    case Some((x, next)) =>
      match DecodeItems(t, base, next, count - 1)
      case None => None
      case Some(rest) => Some([x] + rest)
  }

  /** The list an id stands for, or None. */
  function DecodeId(t: Table, base: nat, id: XattrId): Option<seq<Xattr>>
  {
    if id.count == 0 then None else
    match Resolve(t, base, MkInode(id.ref))
    case None => None
    case Some(q) => DecodeItems(t, base, q, id.count)
  }

  /** get_xattr: the loop over the entries of one id. */
  method GetXattr(t: Table, base: nat, id: XattrId) returns (r: Option<seq<Xattr>>)
    ensures r == DecodeId(t, base, id)
  {
    hide DecodeItem, Resolve;
    var start := Resolve(t, base, MkInode(id.ref));
    if id.count == 0 || start.None? {
      return None;
    }
    var q, list, left := start.value, [], id.count;
    ghost var all := DecodeItems(t, base, q, left);
    assert all.Some? ==> list + all.value == all.value;
    while left > 0
      invariant match DecodeItems(t, base, q, left)
                case None => all == None
                case Some(rest) => all == Some(list + rest)
    {
      var one := DecodeItem(t, base, q);
      if one.None? {
        return None;
      }
      ghost var rest := DecodeItems(t, base, one.value.1, left - 1);
      assert rest.Some? ==> list + ([one.value.0] + rest.value) == (list + [one.value.0]) + rest.value;
      list := list + [one.value.0];
      q := one.value.1;
      left := left - 1;
    }
    assert list + [] == list;
    r := Some(list);
  }

  // ---------- the finished table ----------

  /** A closed table that a reader has collected. */
  ghost predicate Closed(p: Packer, m: Meta, base: nat, t: Table)
  {
    && Full(m.blocks) && ReadsAs(p, Close(m), base, t) && |EncodeBlocks(p, Close(m))| < 0x1_0000_0000
  }

  lemma ClosedStream(p: Packer, m: Meta, base: nat, t: Table)
    requires Closed(p, m, base, t)
    ensures t.bytes == Stream(m)
  {
    hide EncodeBlocks, ReadsAs, Close;
    CloseStream(m);
    TableIsStream(p, Close(m), base, t);
  }

  lemma ClosedResolve(p: Packer, m: Meta, base: nat, t: Table, r: Ref, q: nat)
    requires Closed(p, m, base, t) && Names(p, m.blocks, r, q) && q < |Stream(m)|
    ensures Resolve(t, base, MkInode(r)) == Some(q)
  {
    hide EncodeBlocks, ReadsAs, Names, Resolve, Close;
    CloseStream(m);
    NamesGrows(p, m.blocks, Close(m), r, q);
    ResolveNamed(p, Close(m), base, t, r, q);
  }

  lemma ValueBack(s: seq<byte>, q: nat, value: seq<byte>)
    requires Holds(s, q, EncodeValue(value)) && |value| < 0x1_0000_0000
    ensures ReadValue(s, q) == Some(value)
  {
    hide PutLe, GetLe;
    Spans();
    LeRoundTrip(|value|, 4);
    var size := PutLe(|value|, 4);
    assert EncodeValue(value) == [] + size + value == size + value + [];
    HoldsPart(s, q, [], size, value);
    HoldsPart(s, q, size, value, []);
  }

  lemma KindWord(kind: nat, ool: bool)
    requires kind < 3
    ensures var w := kind + if ool then VALUE_OOL else 0;
            w < 0x1_0000 && w % 256 == kind && (w / VALUE_OOL % 2 == 1 <==> ool)
  {
  }

  lemma RefWord(r: Ref)
    requires r.block < 0x1_0000_0000 && r.offset < BLOCK
    ensures MkInode(r) < Span(8)
  {
    Spans();
  }

  lemma NameFields(it: Item, s: seq<byte>, q: nat)
    requires Storable(it.x) && Holds(s, q, EncodeItem(it))
    ensures var size := |Suffix(it.x.name)|;
            && q + 4 + size <= |s|
            && GetLe(s[q..q + 2]) == Kind(it.x.name) + (if it.ool.Some? then VALUE_OOL else 0)
            && GetLe(s[q + 2..q + 4]) == size && s[q + 4..q + 4 + size] == Suffix(it.x.name)
            && Holds(s, q + 4 + size, EncodeBody(it))
            && Prefix(Kind(it.x.name)) + Suffix(it.x.name) == it.x.name
  {
    hide PutLe, GetLe, EncodeBody, KindOf;
    var kind, name := Kind(it.x.name), Suffix(it.x.name);
    var w := kind + if it.ool.Some? then VALUE_OOL else 0;
    KindWord(kind, it.ool.Some?);
    Spans();
    LeRoundTrip(w, 2);
    LeRoundTrip(|name|, 2);
    var a, b, c := PutLe(w, 2), PutLe(|name|, 2), EncodeBody(it);
    assert EncodeItem(it) == [] + a + (b + name + c) == a + b + (name + c) == (a + b) + name + c ==
           (a + b + name) + c + [];
    HoldsPart(s, q, [], a, b + name + c);
    HoldsPart(s, q, a, b, name + c);
    HoldsPart(s, q, a + b, name, c);
    HoldsPart(s, q, a + b + name, c, []);
  }

  lemma BodyFields(it: Item, s: seq<byte>, q: nat)
    requires it.ool.Some? && Holds(s, q, EncodeBody(it)) && MkInode(it.ool.value) < Span(8)
    ensures q + 12 <= |s| && GetLe(s[q + 4..q + 12]) == MkInode(it.ool.value)
  {
    hide PutLe, GetLe, MkInode;
    var a, b := PutLe(OOL_SIZE, 4), PutLe(MkInode(it.ool.value), 8);
    LeRoundTrip(MkInode(it.ool.value), 8);
    assert EncodeBody(it) == a + b + [];
    HoldsPart(s, q, a, b, []);
  }

  /** One entry decodes to its name and value, inline or through its reference. */
  lemma ItemBack(p: Packer, m: Meta, base: nat, t: Table, it: Item, q: nat)
    requires Closed(p, m, base, t) && Storable(it.x) && ItemRight(p, m, it)
    requires Holds(Stream(m), q, EncodeItem(it))
    ensures DecodeItem(t, base, q) == Some((it.x, q + |EncodeItem(it)|))
  {
    hide KindOf, Kind, EncodeName, EncodeBody, Closed, Names, EncodeValue, Resolve, GetLe, ReadValue, MkInode, Suffix,
      PutLe, Stream;
    var s := Stream(m);
    ClosedStream(p, m, base, t);
    NameFields(it, s, q);
    KindWord(Kind(it.x.name), it.ool.Some?);
    var body := q + 4 + |Suffix(it.x.name)|;
    if it.ool.Some? {
      var r := it.ool.value;
      var v :| Names(p, m.blocks, r, v) && Holds(s, v, EncodeValue(it.x.value));
      RefInTable(p, m, base, t, r, v);
      RefWord(r);
      BodyFields(it, s, body);
      BodySize(it);
      ValueSize(it.x.value);
      ClosedResolve(p, m, base, t, r, v);
      ValueBack(s, v, it.x.value);
    } else {
      InlineBody(it);
      ValueBack(s, body, it.x.value);
      ValueSize(it.x.value);
    }
  }

  lemma BodySize(it: Item)
    ensures it.ool.Some? ==> |EncodeBody(it)| == 12
  {
  }

  lemma ValueSize(value: seq<byte>)
    ensures |EncodeValue(value)| == 4 + |value|
  {
  }

  lemma InlineBody(it: Item)
    ensures it.ool.None? ==> EncodeBody(it) == EncodeValue(it.x.value)
  {
  }

  /** Block positions of a closed table fit in 32 bits. */
  lemma RefInTable(p: Packer, m: Meta, base: nat, t: Table, r: Ref, q: nat)
    requires Closed(p, m, base, t) && Names(p, m.blocks, r, q)
    ensures r.block < 0x1_0000_0000
  {
    hide EncodeBlocks, ReadsAs;
    var blocks, k := Close(m), q / BLOCK;
    CloseStream(m);
    NamesGrows(p, m.blocks, blocks, r, q);
    assert blocks[..|blocks|] == blocks;
    if k < |blocks| {
      PositionsIncrease(p, blocks, k, |blocks|);
    }
  }

  lemma {:induction false} ItemsBack(p: Packer, m: Meta, base: nat, t: Table, items: seq<Item>, at: nat, k: nat)
    requires Closed(p, m, base, t) && ItemsStorable(items) && k <= |items|
    requires Holds(Stream(m), at, EncodeItems(items))
    requires forall i :: 0 <= i < |items| ==> ItemRight(p, m, items[i])
    ensures DecodeItems(t, base, at + |EncodeItems(items[..k])|, |items| - k) == Some(ListOf(items)[k..])
    decreases |items| - k
  {
    hide Closed, EncodeItem, EncodeItems, DecodeItem, ItemRight, Storable, ListOf, Stream;
    if k < |items| {
      ItemInItems(items, k);
      HoldsTrans(Stream(m), at, EncodeItems(items), |EncodeItems(items[..k])|, EncodeItem(items[k]));
      ItemBack(p, m, base, t, items[k], at + |EncodeItems(items[..k])|);
      EncodeItemsNext(items, k);
      ItemsBack(p, m, base, t, items, at, k + 1);
      assert ListOf(items)[k..] == [items[k].x] + ListOf(items)[k + 1..];
    }
  }

  lemma EncodeItemsNext(items: seq<Item>, k: nat)
    requires k < |items|
    ensures EncodeItems(items[..k + 1]) == EncodeItems(items[..k]) + EncodeItem(items[k])
  {
    hide EncodeItem;
    assert items[..k + 1][..k] == items[..k];
  }

  lemma {:induction false} ItemInItems(items: seq<Item>, k: nat)
    requires k < |items|
    ensures Holds(EncodeItems(items), |EncodeItems(items[..k])|, EncodeItem(items[k]))
    decreases |items|
  {
    hide EncodeItem;
    var n := |items| - 1;
    if k < n {
      ItemInItems(items[..n], k);
      assert items[..n][..k] == items[..k];
      HoldsGrow(EncodeItems(items[..n]), EncodeItem(items[n]), |EncodeItems(items[..k])|, EncodeItem(items[k]));
    }
  }

  /** After the table is closed and read back, an id decodes to its list: names and
      values in order, across inline, out-of-line and shared values. */
  lemma IdBack(p: Packer, m: Meta, base: nat, t: Table, id: XattrId, l: Layout, xs: seq<Xattr>)
    requires Closed(p, m, base, t) && ListAt(p, m, id, l, xs)
    ensures DecodeId(t, base, id) == Some(xs)
  {
    hide Closed, EncodeItems, EncodeItem, DecodeItems, ItemRight, Storable, Resolve, Names, ListSize;
    NonEmptyItems(l.items);
    ClosedResolve(p, m, base, t, id.ref, l.at);
    ItemsBack(p, m, base, t, l.items, l.at, 0);
    assert l.items[..0] == [] && |EncodeItems(l.items[..0])| == 0 by { EncodeNoItems(); }
    assert ListOf(l.items)[0..] == ListOf(l.items);
  }

  lemma EncodeNoItems()
    ensures EncodeItems([]) == []
  {
  }

  lemma NonEmptyItems(items: seq<Item>)
    requires items != []
    ensures |EncodeItems(items)| > 0
  {
    assert |EncodeName(items[|items| - 1])| >= 4;
  }
}
