/** Building the xattr store: generate_xattrs with its two duplicate searches. */
module XattrStore {
  import opened Bytes
  import opened Compressor
  import opened Metadata
  import opened Checksum
  import opened Xattrs

  // ---------- list-level duplicates ----------

  /** The checksum over all names and values of a list. */
  function ListSum(xs: seq<Xattr>): nat
  {
    if xs == [] then 0 else
      var x := xs[|xs| - 1];
      Sum(x.value, Sum(x.name, ListSum(xs[..|xs| - 1])))
  }

  /** memcmp(fresh, stored, |fresh|) == 0. The stored value may be longer, in which case
      only its beginning is looked at; when it is shorter the comparison runs past its
      end, and `beyond` stands for what is found there. */
  predicate SameBytes(now: seq<byte>, stored: seq<byte>, beyond: (seq<byte>, seq<byte>) -> bool)
  {
    if |now| <= |stored| then stored[..|now|] == now else now[..|stored|] == stored && beyond(now, stored)
  }

  predicate SameList(now: seq<Xattr>, stored: seq<Xattr>, beyond: (seq<byte>, seq<byte>) -> bool)
  {
    |now| == |stored|
    && forall i :: 0 <= i < |now| ==> now[i].name == stored[i].name && SameBytes(now[i].value, stored[i].value, beyond)
  }

  predicate SameLengths(now: seq<Xattr>, stored: seq<Xattr>)
    requires |now| == |stored|
  {
    forall i :: 0 <= i < |now| ==> |now[i].value| == |stored[i].value|
  }

  /** Two lists that the comparison takes for the same are the same exactly when their
      values have the same lengths. */
  lemma SameListExact(now: seq<Xattr>, stored: seq<Xattr>, beyond: (seq<byte>, seq<byte>) -> bool)
    requires SameList(now, stored, beyond)
    ensures now == stored <==> SameLengths(now, stored)
  {
    if SameLengths(now, stored) {
      forall i | 0 <= i < |now|
        ensures now[i] == stored[i]
      {
        assert SameBytes(now[i].value, stored[i].value, beyond);
        assert stored[i].value[..|now[i].value|] == stored[i].value;
      }
    }
  }

  datatype IdEntry = IdEntry(list: seq<Xattr>, id: nat)

  type ListTable = map<nat, seq<IdEntry>>

  function ListChain(t: ListTable, sum: nat): seq<IdEntry>
  {
    if sum in t then t[sum] else []
  }

  function FirstSame(chain: seq<IdEntry>, xs: seq<Xattr>, beyond: (seq<byte>, seq<byte>) -> bool): (r: Option<IdEntry>)
    ensures r.Some? ==> r.value in chain && SameList(xs, r.value.list, beyond)
  {
    if chain == [] then None
    else if SameList(xs, chain[0].list, beyond) then Some(chain[0])
    else FirstSame(chain[1..], xs, beyond)
  }

  /** The stored list that check_id_dupl takes xs for, if any. */
  function Match(t: ListTable, xs: seq<Xattr>, beyond: (seq<byte>, seq<byte>) -> bool): Option<IdEntry>
  {
    FirstSame(ListChain(t, ListSum(xs)), xs, beyond)
  }

  method CheckIdDupl(t: ListTable, xs: seq<Xattr>, beyond: (seq<byte>, seq<byte>) -> bool)
    returns (sum: nat, r: Option<IdEntry>)
    ensures sum == ListSum(xs) && r == Match(t, xs, beyond)
  {
    sum := 0;
    for i := 0 to |xs|
      invariant sum == ListSum(xs[..i])
    {
      assert xs[..i + 1][..i] == xs[..i];
      sum := GetChecksum(xs[i].name, sum);
      sum := GetChecksum(xs[i].value, sum);
    }
    assert xs[..|xs|] == xs;
    var chain := ListChain(t, sum);
    var i := 0;
    assert chain[0..] == chain;
    while i < |chain|
      invariant 0 <= i <= |chain| && FirstSame(chain[i..], xs, beyond) == Match(t, xs, beyond)
    {
      if SameList(xs, chain[i].list, beyond) {
        return sum, Some(chain[i]);
      }
      assert chain[i..][1..] == chain[i + 1..];
      i := i + 1;
    }
    r := None;
  }

  // ---------- inline or out of line ----------

  function ItemSize(x: Xattr, max: nat): nat
  {
    4 + 4 + |Suffix(x.name)| + if |x.value| > max then OOL_SIZE else |x.value|
  }

  function TotalSize(xs: seq<Xattr>, max: nat): nat
  {
    if xs == [] then 0 else TotalSize(xs[..|xs| - 1], max) + ItemSize(xs[|xs| - 1], max)
  }

  function Lower(max: nat): nat
  {
    if max / 2 < OOL_SIZE then OOL_SIZE else max / 2
  }

  /** Whether `max` is the first threshold of 128, 64, 32, 16, 8 that meets the target,
      or the last one. */
  ghost predicate FirstFitting(xs: seq<Xattr>, from: nat, max: nat)
    decreases from
  {
    if TotalSize(xs, from) <= TARGET_MAX || from <= OOL_SIZE then max == from
    else FirstFitting(xs, Lower(from), max)
  }

  /** The threshold loop: lower the inline limit until the list is small enough. */
  method InlineLimit(xs: seq<Xattr>) returns (max: nat)
    ensures FirstFitting(xs, INLINE_MAX, max)
    ensures TotalSize(xs, max) <= TARGET_MAX || max == OOL_SIZE
  {
    max := INLINE_MAX;
    while true
      invariant max >= OOL_SIZE
      invariant forall m: nat :: FirstFitting(xs, INLINE_MAX, m) <==> FirstFitting(xs, max, m)
      decreases max
    {
      var total := 0;
      for i := 0 to |xs|
        invariant total == TotalSize(xs[..i], max)
      {
        assert xs[..i + 1][..i] == xs[..i];
        total := total + ItemSize(xs[i], max);
      }
      assert xs[..|xs|] == xs;
      if total <= TARGET_MAX || max == OOL_SIZE {
        return;
      }
      max := Lower(max);
    }
  }

  // ---------- how much room a list can take ----------

  /** Bytes enough for the values of a list written out of line. */
  function ValueRoom(xs: seq<Xattr>): nat
  {
    if xs == [] then 0 else ValueRoom(xs[..|xs| - 1]) + 4 + |xs[|xs| - 1].value|
  }

  /** Bytes enough for the entries of a list. */
  function ItemRoom(xs: seq<Xattr>): nat
  {
    if xs == [] then 0 else ItemRoom(xs[..|xs| - 1]) + 16 + |xs[|xs| - 1].name| + |xs[|xs| - 1].value|
  }

  function Room(xs: seq<Xattr>): nat { ValueRoom(xs) + ItemRoom(xs) }

  function RoomAll(xss: seq<seq<Xattr>>): nat
  {
    if xss == [] then 0 else RoomAll(xss[..|xss| - 1]) + Room(xss[|xss| - 1])
  }

  lemma ItemFits(it: Item)
    ensures |EncodeItem(it)| <= 16 + |it.x.name| + |it.x.value|
  {
  }

  lemma {:induction false} ItemsFit(items: seq<Item>)
    ensures |EncodeItems(items)| <= ItemRoom(ListOf(items))
    decreases |items|
  {
    hide EncodeItem;
    if items != [] {
      var n := |items| - 1;
      ItemsFit(items[..n]);
      ItemFits(items[n]);
      assert ListOf(items)[..n] == ListOf(items[..n]);
    }
  }

  /** A list has no more entries, and takes no more bytes to list, than its room. */
  lemma {:induction false} RoomBounds(xs: seq<Xattr>)
    ensures |xs| <= ItemRoom(xs) && ListSize(xs) <= ItemRoom(xs)
    decreases |xs|
  {
    if xs != [] {
      RoomBounds(xs[..|xs| - 1]);
    }
  }

  // ---------- the parts of xattr_list that outlive a call ----------

  /** One value: whether its entry is out of line, and where the value stands once it
      has been written (type and ool_value of struct xattr_list). */
  datatype Cell = Cell(value: seq<byte>, ool: bool, at: Option<Ref>)

  ghost predicate CellsOk(p: Packer, m: Meta, cells: seq<Cell>)
  {
    forall c :: 0 <= c < |cells| ==> CellOk(p, m, cells[c])
  }

  ghost predicate CellOk(p: Packer, m: Meta, c: Cell)
  {
    c.at.Some? ==> ValueAt(p, m, c.at.value, c.value)
  }

  lemma CellsGrow(p: Packer, a: Meta, b: Meta, cells: seq<Cell>)
    requires CellsOk(p, a, cells) && Grows(a, b)
    ensures CellsOk(p, b, cells)
  {
    hide ValueAt, Grows;
    forall c | 0 <= c < |cells|
      ensures CellOk(p, b, cells[c])
    {
      assert CellOk(p, a, cells[c]);
      if cells[c].at.Some? {
        ValueGrows(p, a, b, cells[c].at.value, cells[c].value);
      }
    }
  }

  /** A value just appended is found through the reference handed out for it. */
  lemma AppendedValue(p: Packer, m: Meta, value: seq<byte>)
    requires Full(m.blocks)
    ensures ValueAt(p, Put(m, EncodeValue(value)), RefOf(p, m), value)
  {
    hide EncodeValue, Names, RefOf, EncodeBlocks;
    var m', q := Put(m, EncodeValue(value)), |Stream(m)|;
    RefNames(p, m, m'.blocks);
    PutStream(m, EncodeValue(value));
    assert Holds(Stream(m'), q, EncodeValue(value));
  }

  type ValueTable = map<nat, seq<nat>>

  function ValueChain(t: ValueTable, sum: nat): seq<nat>
  {
    if sum in t then t[sum] else []
  }

  ghost predicate ChainsOk(t: ValueTable, n: nat)
  {
    forall sum, j :: sum in t && 0 <= j < |t[sum]| ==> t[sum][j] < n
  }

  class Store {
    const w: Writer
    var ids: seq<XattrId>
    var cells: seq<Cell>
    var values: ValueTable
    var lists: ListTable
    ghost var layouts: seq<Layout>
    ghost var given: seq<seq<Xattr>>

    ghost predicate Valid()
      reads this, w
    {
      && w.Valid() && ListsOk(w.packer, w.meta, ids, layouts, given)
      && CellsOk(w.packer, w.meta, cells) && ChainsOk(values, |cells|) && IdsOk(lists, given)
    }

    constructor (packer: Packer)
      ensures Valid() && ids == [] && given == [] && lists == map[] && w.packer == packer && w.meta == Meta([], [])
      ensures fresh(w)
    {
      w := new Writer(packer);
      ids, cells, values, lists, layouts, given := [], [], map[], map[], [], [];
    }

    /** check_value_dupl: an equal value seen before is shared through its place, which
        may not be known yet when it belongs to the same list. */
    method CheckValueDupl(c: nat)
      requires w.Valid() && CellsOk(w.packer, w.meta, cells) && ChainsOk(values, |cells|)
      requires c < |cells| && cells[c].at == None
      modifies this`cells, this`values
      ensures CellsOk(w.packer, w.meta, cells) && ChainsOk(values, |cells|) && |cells| == |old(cells)|
      ensures forall k :: 0 <= k < |cells| && k != c ==> cells[k] == old(cells)[k]
      ensures cells[c].value == old(cells)[c].value && (old(cells)[c].ool ==> cells[c].ool)
    {
      hide ValueAt;
      if |cells[c].value| < OOL_SIZE {
        return;
      }
      var sum := GetChecksum(cells[c].value, 0);
      var chain := ValueChain(values, sum);
      var i := 0;
      while i < |chain| && cells[chain[i]].value != cells[c].value
        invariant 0 <= i <= |chain|
      {
        i := i + 1;
      }
      if i == |chain| {
        values := values[sum := [c] + chain];
      } else {
        var e := chain[i];
        assert CellOk(w.packer, w.meta, cells[e]);
        cells := cells[c := cells[c].(ool := true, at := cells[e].at)];
      }
    }

    /** Write an out-of-line value that does not exist yet. */
    method WriteOol(c: nat)
      requires w.Valid() && CellsOk(w.packer, w.meta, cells) && c < |cells|
      modifies this`cells, w
      ensures w.Valid() && CellsOk(w.packer, w.meta, cells) && |cells| == |old(cells)|
      ensures forall k :: 0 <= k < |cells| && k != c ==> cells[k] == old(cells)[k]
      ensures cells[c].value == old(cells)[c].value && cells[c].ool == old(cells)[c].ool
      ensures cells[c].ool ==> cells[c].at.Some?
      ensures Grows(old(w.meta), w.meta) && |Stream(w.meta)| <= |Stream(old(w.meta))| + 4 + |cells[c].value|
    {
      hide ValueAt, Grows, Stream;
      GrowsRefl(w.meta);
      if cells[c].ool && cells[c].at.None? {
        var value := cells[c].value;
        ghost var m := w.meta;
        var r := w.Append(PutLe(|value|, 4) + value);
        AppendedValue(w.packer, m, value);
        PutGrows(m, EncodeValue(value));
        CellsGrow(w.packer, m, w.meta, cells);
        cells := cells[c := cells[c].(at := Some(r))];
      }
    }

    /** Write one entry of the list. */
    method WriteItem(x: Xattr, c: nat) returns (ghost it: Item)
      requires w.Valid() && CellsOk(w.packer, w.meta, cells) && c < |cells|
      requires cells[c].value == x.value && (cells[c].ool ==> cells[c].at.Some?)
      modifies this`cells, w
      ensures w.Valid() && CellsOk(w.packer, w.meta, cells) && |cells| == |old(cells)|
      ensures forall k :: 0 <= k < |cells| && k != c ==> cells[k] == old(cells)[k]
      ensures cells[c].value == old(cells)[c].value
      ensures it.x == x && ItemRight(w.packer, w.meta, it)
      ensures Grows(old(w.meta), w.meta) && Stream(w.meta) == Stream(old(w.meta)) + EncodeItem(it)
    {
      hide ValueAt, Grows, Stream, Put, RefOf, Kind, Suffix, CellsOk, PutLe;
      ghost var m0 := w.meta;
      var kind := Kind(x.name) + if cells[c].ool then VALUE_OOL else 0;
      var name := Suffix(x.name);
      it := Item(x, if cells[c].ool then cells[c].at else None);
      var _ := w.Append(PutLe(kind, 2) + PutLe(|name|, 2) + name);
      ghost var m1 := w.meta;
      PutGrows(m0, EncodeName(it));
      CellsGrow(w.packer, m0, m1, cells);
      WriteBody(x, c, it);
      GrowsTrans(m0, m1, w.meta);
      assert Stream(m0) + EncodeName(it) + EncodeBody(it) == Stream(m0) + (EncodeName(it) + EncodeBody(it));
    }

    method WriteBody(x: Xattr, c: nat, ghost it: Item)
      requires w.Valid() && CellsOk(w.packer, w.meta, cells) && c < |cells|
      requires cells[c].value == x.value && (cells[c].ool ==> cells[c].at.Some?)
      requires it == Item(x, if cells[c].ool then cells[c].at else None)
      modifies this`cells, w
      ensures w.Valid() && CellsOk(w.packer, w.meta, cells) && |cells| == |old(cells)|
      ensures forall k :: 0 <= k < |cells| && k != c ==> cells[k] == old(cells)[k]
      ensures cells[c].value == old(cells)[c].value && ItemRight(w.packer, w.meta, it)
      ensures Grows(old(w.meta), w.meta) && Stream(w.meta) == Stream(old(w.meta)) + EncodeBody(it)
    {
      hide ValueAt, Grows, Stream, Put, RefOf, PutLe;
      ghost var m := w.meta;
      if cells[c].ool {
        var place := cells[c].at.value;
        var _ := w.Append(PutLe(OOL_SIZE, 4) + PutLe(MkInode(place), 8));
        PutGrows(m, EncodeBody(it));
        CellsGrow(w.packer, m, w.meta, cells);
        assert CellOk(w.packer, w.meta, cells[c]);
      } else {
        var r := w.Append(PutLe(|x.value|, 4) + x.value);
        AppendedValue(w.packer, m, x.value);
        PutGrows(m, EncodeBody(it));
        CellsGrow(w.packer, m, w.meta, cells);
        cells := cells[c := cells[c].(at := Some(r))];
      }
    }

    /** The cells of a new list, inline or not by size, then shared where possible. */
    method AddCells(xs: seq<Xattr>, max: nat) returns (base: nat)
      requires w.Valid() && CellsOk(w.packer, w.meta, cells) && ChainsOk(values, |cells|)
      modifies this`cells, this`values
      ensures CellsOk(w.packer, w.meta, cells) && ChainsOk(values, |cells|)
      ensures base == |old(cells)| && |cells| == base + |xs|
      ensures forall i :: 0 <= i < |xs| ==> cells[base + i].value == xs[i].value
    {
      hide ValueAt;
      base := |cells|;
      for i := 0 to |xs|
        invariant |cells| == base + i && CellsOk(w.packer, w.meta, cells) && ChainsOk(values, |cells|)
        invariant forall k :: 0 <= k < i ==> cells[base + k].value == xs[k].value
        invariant forall c :: base <= c < |cells| ==> cells[c].at == None
      {
        cells := cells + [Cell(xs[i].value, |xs[i].value| > max, None)];
      }
      for i := 0 to |xs|
        invariant |cells| == base + |xs| && CellsOk(w.packer, w.meta, cells) && ChainsOk(values, |cells|)
        invariant forall k :: 0 <= k < |xs| ==> cells[base + k].value == xs[k].value
        invariant forall c :: base + i <= c < |cells| ==> cells[c].at == None
      {
        CheckValueDupl(base + i);
      }
    }

    /** Put the out-of-line values into the stream. */
    method WriteValues(base: nat, n: nat, ghost xs: seq<Xattr>)
      requires w.Valid() && CellsOk(w.packer, w.meta, cells) && |cells| == base + n && |xs| == n
      requires forall k :: 0 <= k < n ==> cells[base + k].value == xs[k].value
      modifies this`cells, w
      ensures w.Valid() && CellsOk(w.packer, w.meta, cells) && |cells| == |old(cells)|
      ensures forall k :: 0 <= k < n ==> cells[base + k].value == xs[k].value
      ensures forall c :: base <= c < |cells| && cells[c].ool ==> cells[c].at.Some?
      ensures Grows(old(w.meta), w.meta) && |Stream(w.meta)| <= |Stream(old(w.meta))| + ValueRoom(xs)
    {
      hide ValueAt, Grows, CellsOk, Stream;
      ghost var m0 := w.meta;
      GrowsRefl(m0);
      assert xs[..0] == [];
      for i := 0 to n
        invariant w.Valid() && CellsOk(w.packer, w.meta, cells) && |cells| == base + n && Grows(m0, w.meta)
        invariant forall k :: 0 <= k < n ==> cells[base + k].value == xs[k].value
        invariant forall c :: base <= c < base + i && cells[c].ool ==> cells[c].at.Some?
        invariant |Stream(w.meta)| <= |Stream(m0)| + ValueRoom(xs[..i])
      {
        ghost var m := w.meta;
        WriteOol(base + i);
        GrowsTrans(m0, m, w.meta);
        TakeTake(xs, i, i + 1);
      }
      TakeAll(xs);
    }

    /** Put the entries of the list into the stream, one after the other. */
    method WriteItems(xs: seq<Xattr>, base: nat) returns (ghost items: seq<Item>)
      requires w.Valid() && CellsOk(w.packer, w.meta, cells) && |cells| == base + |xs|
      requires forall k :: 0 <= k < |xs| ==> cells[base + k].value == xs[k].value
      requires forall c :: base <= c < |cells| && cells[c].ool ==> cells[c].at.Some?
      modifies this`cells, w
      ensures w.Valid() && CellsOk(w.packer, w.meta, cells) && |cells| == |old(cells)| && ListOf(items) == xs
      ensures Grows(old(w.meta), w.meta) && Stream(w.meta) == Stream(old(w.meta)) + EncodeItems(items)
      ensures forall k :: 0 <= k < |items| ==> ItemRight(w.packer, w.meta, items[k])
    {
      hide ValueAt, Grows, CellsOk, Stream, EncodeItems, EncodeItem, Put, RefOf;
      ghost var m0 := w.meta;
      items := [];
      GrowsRefl(m0);
      EncodeNoItems();
      for i := 0 to |xs|
        invariant w.Valid() && CellsOk(w.packer, w.meta, cells) && |cells| == base + |xs|
        invariant forall k :: i <= k < |xs| ==> cells[base + k].value == xs[k].value
        invariant forall c :: base + i <= c < |cells| && cells[c].ool ==> cells[c].at.Some?
        invariant |items| == i && Grows(m0, w.meta) && Stream(w.meta) == Stream(m0) + EncodeItems(items)
        invariant forall k :: 0 <= k < i ==> items[k].x == xs[k] && ItemRight(w.packer, w.meta, items[k])
      {
        ghost var m := w.meta;
        ghost var it := WriteItem(xs[i], base + i);
        GrowsTrans(m0, m, w.meta);
        ItemsGrow(w.packer, m, w.meta, items);
        EncodeItemsSnoc(items, it);
        Assoc(Stream(m0), EncodeItems(items), EncodeItem(it));
        items := items + [it];
      }
      assert ListOf(items) == xs;
    }

    /** Put the list into the stream. */
    method WriteList(xs: seq<Xattr>, base: nat) returns (r: Ref, ghost l: Layout)
      requires w.Valid() && CellsOk(w.packer, w.meta, cells) && |cells| == base + |xs| && AllStorable(xs) && xs != []
      requires forall k :: 0 <= k < |xs| ==> cells[base + k].value == xs[k].value
      requires forall c :: base <= c < |cells| && cells[c].ool ==> cells[c].at.Some?
      modifies this`cells, w
      ensures w.Valid() && CellsOk(w.packer, w.meta, cells) && |cells| == |old(cells)|
      ensures Grows(old(w.meta), w.meta) && ListAt(w.packer, w.meta, XattrId(r, |xs|, ListSize(xs)), l, xs)
      ensures |Stream(w.meta)| <= |Stream(old(w.meta))| + ItemRoom(xs)
    {
      hide ValueAt, Grows, CellsOk, Stream, AllStorable, EncodeItems, Names, Put, RefOf, ListSize, ListOf, ListAt,
        ItemRight, ItemRoom;
      ghost var m0 := w.meta;
      r := w.Append([]);
      ghost var m1 := w.meta;
      PutGrows(m0, []);
      CellsGrow(w.packer, m0, m1, cells);
      PlaceNow(w.packer, m0);
      ghost var items := WriteItems(xs, base);
      l := Layout(|Stream(m0)|, items);
      GrowsTrans(m0, m1, w.meta);
      PlaceKept(w.packer, m1, w.meta, r, l.at);
      ItemsFit(items);
      ListNow(w.packer, w.meta, Stream(m0), r, items, xs);
    }

    /** generate_xattrs: the id of an equal-looking list that is already stored, or a new
        id for this one. What the id stands for is given[id]. */
    method Generate(xs: seq<Xattr>, beyond: (seq<byte>, seq<byte>) -> bool) returns (id: nat)
      requires Valid() && AllStorable(xs) && xs != []
      modifies this, w
      ensures Valid() && Grows(old(w.meta), w.meta) && id < |given| && old(ids) <= ids
      ensures |Stream(w.meta)| <= |Stream(old(w.meta))| + Room(xs)
      ensures match Match(old(lists), xs, beyond)
              case Some(e) => id == e.id && given == old(given) && given[id] == e.list && lists == old(lists)
              case None => id == |old(given)| && given == old(given) + [xs]
                           && lists == old(lists)[ListSum(xs) := [IdEntry(xs, id)] + ListChain(old(lists), ListSum(xs))]
    {
      hide Storable, Grows, CellsOk, ListsOk, ChainsOk, IdsOk, FirstSame, ListSum, TotalSize, ItemSize, ListSize,
        ListAt, Match, Full, EncodeBlocks, Stream, ItemRoom, ValueRoom;
      GrowsRefl(w.meta);
      var sum, e := CheckIdDupl(lists, xs, beyond);
      if e.Some? {
        FoundEntry(lists, given, xs, beyond);
        return e.value.id;
      }
      ghost var m0, oldGiven := w.meta, given;
      var max := InlineLimit(xs);
      var base := AddCells(xs, max);
      WriteValues(base, |xs|, xs);
      ghost var m1 := w.meta;
      var r;
      ghost var l;
      r, l := WriteList(xs, base);
      GrowsTrans(m0, m1, w.meta);
      ListsGrow(w.packer, m0, w.meta, ids, layouts, given);
      var size := SumSizes(xs);
      ListsSnoc(w.packer, w.meta, ids, layouts, given, XattrId(r, |xs|, size), l, xs);
      id := |ids|;
      ids := ids + [XattrId(r, |xs|, size)];
      layouts, given := layouts + [l], given + [xs];
      IdsGrow(lists, oldGiven, xs, sum);
      lists := lists[sum := [IdEntry(xs, id)] + ListChain(lists, sum)];
    }
  }

  lemma ListsSnoc(p: Packer, m: Meta, ids: seq<XattrId>, layouts: seq<Layout>, given: seq<seq<Xattr>>, id: XattrId,
                  l: Layout, xs: seq<Xattr>)
    requires ListsOk(p, m, ids, layouts, given) && ListAt(p, m, id, l, xs)
    ensures ListsOk(p, m, ids + [id], layouts + [l], given + [xs]) && |ids| == |given|
  {
    hide ListAt;
  }

  method SumSizes(xs: seq<Xattr>) returns (size: nat)
    ensures size == ListSize(xs)
  {
    size := 0;
    for i := 0 to |xs|
      invariant size == ListSize(xs[..i])
    {
      TakeTake(xs, i, i + 1);
      size := size + |xs[i].name| + 1 + |xs[i].value|;
    }
    TakeAll(xs);
  }

  lemma ListNow(p: Packer, m: Meta, before: seq<byte>, r: Ref, items: seq<Item>, xs: seq<Xattr>)
    requires AllStorable(xs) && xs != [] && ListOf(items) == xs && Stream(m) == before + EncodeItems(items)
    requires Names(p, m.blocks, r, |before|) && r.offset < BLOCK
    requires forall k :: 0 <= k < |items| ==> ItemRight(p, m, items[k])
    ensures ListAt(p, m, XattrId(r, |xs|, ListSize(xs)), Layout(|before|, items), xs)
  {
    hide Stream, EncodeItems, Names, ItemRight, Storable, ListSize;
  }

  lemma PlaceNow(p: Packer, m: Meta)
    requires Full(m.blocks)
    ensures Names(p, Put(m, []).blocks, RefOf(p, m), |Stream(m)|) && RefOf(p, m).offset < BLOCK
  {
    hide EncodeBlocks;
    RefNames(p, m, Put(m, []).blocks);
  }

  lemma PlaceKept(p: Packer, a: Meta, b: Meta, r: Ref, q: nat)
    requires Grows(a, b) && Names(p, a.blocks, r, q)
    ensures Names(p, b.blocks, r, q)
  {
    NamesGrows(p, a.blocks, b.blocks, r, q);
  }

  lemma ItemsGrow(p: Packer, a: Meta, b: Meta, items: seq<Item>)
    requires Grows(a, b) && forall k :: 0 <= k < |items| ==> ItemRight(p, a, items[k])
    ensures forall k :: 0 <= k < |items| ==> ItemRight(p, b, items[k])
  {
    hide ValueAt, Grows;
    forall k | 0 <= k < |items|
      ensures ItemRight(p, b, items[k])
    {
      if items[k].ool.Some? {
        ValueGrows(p, a, b, items[k].ool.value, items[k].x.value);
      }
    }
  }

  lemma EncodeItemsSnoc(items: seq<Item>, it: Item)
    ensures EncodeItems(items + [it]) == EncodeItems(items) + EncodeItem(it)
  {
    hide EncodeItem;
    assert (items + [it])[..|items|] == items;
  }

  lemma FoundEntry(t: ListTable, given: seq<seq<Xattr>>, xs: seq<Xattr>, beyond: (seq<byte>, seq<byte>) -> bool)
    requires IdsOk(t, given) && Match(t, xs, beyond).Some?
    ensures EntryOk(Match(t, xs, beyond).value, given)
  {
    var e, chain := Match(t, xs, beyond).value, ListChain(t, ListSum(xs));
    var j :| 0 <= j < |chain| && chain[j] == e;
    assert ChainGood(t[ListSum(xs)], given);
  }

  lemma ListsGrow(p: Packer, a: Meta, b: Meta, ids: seq<XattrId>, layouts: seq<Layout>, given: seq<seq<Xattr>>)
    requires ListsOk(p, a, ids, layouts, given) && Grows(a, b)
    ensures ListsOk(p, b, ids, layouts, given)
  {
    hide ListAt, Grows;
    forall i | 0 <= i < |ids|
      ensures ListAt(p, b, ids[i], layouts[i], given[i])
    {
      ListGrows(p, a, b, ids[i], layouts[i], given[i]);
    }
  }

  lemma IdsGrow(t: ListTable, given: seq<seq<Xattr>>, xs: seq<Xattr>, sum: nat)
    requires IdsOk(t, given)
    ensures IdsOk(t[sum := [IdEntry(xs, |given|)] + ListChain(t, sum)], given + [xs])
  {
    var chain := ListChain(t, sum);
    var t' := t[sum := [IdEntry(xs, |given|)] + chain];
    forall s | s in t'
      ensures ChainGood(t'[s], given + [xs])
    {
      ChainGrows(if s in t then t[s] else [], given, xs);
    }
  }

  lemma ChainGrows(chain: seq<IdEntry>, given: seq<seq<Xattr>>, xs: seq<Xattr>)
    requires ChainGood(chain, given)
    ensures ChainGood(chain, given + [xs]) && ChainGood([IdEntry(xs, |given|)] + chain, given + [xs])
  {
    var longer := [IdEntry(xs, |given|)] + chain;
    forall j | 0 <= j < |longer|
      ensures EntryOk(longer[j], given + [xs])
    {
      assert j > 0 ==> EntryOk(chain[j - 1], given);
    }
    forall j | 0 <= j < |chain|
      ensures EntryOk(chain[j], given + [xs])
    {
      assert longer[j + 1] == chain[j];
    }
  }

  lemma GrowsRefl(m: Meta)
    ensures Grows(m, m)
  {
  }

  ghost predicate ListsOk(p: Packer, m: Meta, ids: seq<XattrId>, layouts: seq<Layout>, given: seq<seq<Xattr>>)
  {
    |layouts| == |ids| == |given|
    && forall i :: 0 <= i < |ids| ==> ListAt(p, m, ids[i], layouts[i], given[i])
  }

  /** Every stored list is the one its id was given. */
  ghost predicate IdsOk(t: ListTable, given: seq<seq<Xattr>>)
  {
    forall sum :: sum in t ==> ChainGood(t[sum], given)
  }

  ghost predicate ChainGood(chain: seq<IdEntry>, given: seq<seq<Xattr>>)
  {
    forall j :: 0 <= j < |chain| ==> EntryOk(chain[j], given)
  }

  ghost predicate EntryOk(e: IdEntry, given: seq<seq<Xattr>>)
  {
    e.id < |given| && given[e.id] == e.list
  }

  // ---------- what ids mean over a whole run ----------

  /** The duplicate table and, for each id, the list it was created for. */
  datatype Book = Book(lists: ListTable, given: seq<seq<Xattr>>)

  function IdFor(b: Book, xs: seq<Xattr>, beyond: (seq<byte>, seq<byte>) -> bool): nat
  {
    match Match(b.lists, xs, beyond)
    case Some(e) => e.id
    case None => |b.given|
  }

  function Enter(b: Book, xs: seq<Xattr>, beyond: (seq<byte>, seq<byte>) -> bool): Book
  {
    match Match(b.lists, xs, beyond)
    case Some(e) => b
    case None => Book(b.lists[ListSum(xs) := [IdEntry(xs, |b.given|)] + ListChain(b.lists, ListSum(xs))],
                      b.given + [xs])
  }

  function EnterAll(b: Book, xss: seq<seq<Xattr>>, beyond: (seq<byte>, seq<byte>) -> bool): Book
  {
    if xss == [] then b else Enter(EnterAll(b, xss[..|xss| - 1], beyond), xss[|xss| - 1], beyond)
  }

  lemma {:induction false} EnterAllOk(b: Book, xss: seq<seq<Xattr>>, beyond: (seq<byte>, seq<byte>) -> bool)
    requires IdsOk(b.lists, b.given)
    ensures IdsOk(EnterAll(b, xss, beyond).lists, EnterAll(b, xss, beyond).given)
    ensures b.given <= EnterAll(b, xss, beyond).given
    decreases |xss|
  {
    hide IdsOk, Match, ListSum, ListChain;
    if xss != [] {
      var front, xs := EnterAll(b, xss[..|xss| - 1], beyond), xss[|xss| - 1];
      EnterAllOk(b, xss[..|xss| - 1], beyond);
      IdsGrow(front.lists, front.given, xs, ListSum(xs));
    }
  }

  lemma {:induction false} EnterAllSplit(b: Book, xss: seq<seq<Xattr>>, k: nat, beyond: (seq<byte>, seq<byte>) -> bool)
    requires k <= |xss|
    ensures EnterAll(b, xss, beyond) == EnterAll(EnterAll(b, xss[..k], beyond), xss[k..], beyond)
    decreases |xss|
  {
    hide Enter;
    if k == |xss| {
      assert xss[..k] == xss && xss[k..] == [];
    } else {
      var n := |xss| - 1;
      EnterAllSplit(b, xss[..n], k, beyond);
      assert xss[..n][..k] == xss[..k] && xss[..n][k..] == xss[k..][..n - k];
    }
  }

  /** The list stored for call k's id, at the end of any run, is the list of call k if
      and only if the list it was merged with, if any, has values of the same lengths. */
  lemma IdMeansList(xss: seq<seq<Xattr>>, k: nat, beyond: (seq<byte>, seq<byte>) -> bool)
    requires k < |xss|
    ensures var before, end := EnterAll(Book(map[], []), xss[..k], beyond), EnterAll(Book(map[], []), xss, beyond);
            var id := IdFor(before, xss[k], beyond);
            id < |end.given|
            && (end.given[id] == xss[k] <==>
                (match Match(before.lists, xss[k], beyond)
                 case None => true
                 case Some(e) => SameLengths(xss[k], e.list)))
  {
    hide IdsOk, Match, ListSum, ListChain, EnterAll;
    var b := Book(map[], []);
    var before, xs := EnterAll(b, xss[..k], beyond), xss[k];
    assert IdsOk(b.lists, b.given) by { EmptyBook(); }
    EnterAllOk(b, xss[..k], beyond);
    EnterAllSplit(b, xss, k, beyond);
    EnterFirst(before, xss[k..], beyond);
    assert xss[k..][0] == xs;
    var now := Enter(before, xs, beyond);
    IdsGrow(before.lists, before.given, xs, ListSum(xs));
    EnterAllOk(now, xss[k..][1..], beyond);
    if Match(before.lists, xs, beyond).Some? {
      FoundEntry(before.lists, before.given, xs, beyond);
      MatchIsSame(before.lists, xs, beyond);
      SameListExact(xs, Match(before.lists, xs, beyond).value.list, beyond);
    }
  }

  lemma EmptyBook()
    ensures IdsOk(map[], [])
  {
  }

  lemma MatchIsSame(t: ListTable, xs: seq<Xattr>, beyond: (seq<byte>, seq<byte>) -> bool)
    requires Match(t, xs, beyond).Some?
    ensures SameList(xs, Match(t, xs, beyond).value.list, beyond)
  {
  }

  lemma EnterFirst(b: Book, xss: seq<seq<Xattr>>, beyond: (seq<byte>, seq<byte>) -> bool)
    requires xss != []
    ensures EnterAll(b, xss, beyond) == EnterAll(Enter(b, xss[0], beyond), xss[1..], beyond)
  {
    hide Enter;
    EnterAllSplit(b, xss, 1, beyond);
    assert xss[..1][..0] == [];
  }

  /** Every id of a valid store decodes, from the closed table, to the list it stands for. */
  lemma IdsDecode(p: Packer, m: Meta, base: nat, t: Table, ids: seq<XattrId>, layouts: seq<Layout>,
                  given: seq<seq<Xattr>>, id: nat)
    requires ListsOk(p, m, ids, layouts, given) && Closed(p, m, base, t) && id < |ids|
    ensures DecodeId(t, base, ids[id]) == Some(given[id])
  {
    hide ListAt, Closed, DecodeId;
    IdBack(p, m, base, t, ids[id], layouts[id], given[id]);
  }

  lemma EnterNext(b: Book, xss: seq<seq<Xattr>>, k: nat, beyond: (seq<byte>, seq<byte>) -> bool)
    requires k < |xss|
    ensures EnterAll(b, xss[..k + 1], beyond) == Enter(EnterAll(b, xss[..k], beyond), xss[k], beyond)
  {
    hide Enter;
    TakeTake(xss, k, k + 1);
  }

  lemma EnterNone(b: Book, xss: seq<seq<Xattr>>, beyond: (seq<byte>, seq<byte>) -> bool)
    ensures EnterAll(b, xss[..0], beyond) == b
  {
  }

  lemma RoomNext(xss: seq<seq<Xattr>>, k: nat)
    requires k < |xss|
    ensures RoomAll(xss[..k + 1]) == RoomAll(xss[..k]) + Room(xss[k])
  {
    hide Room;
    TakeTake(xss, k, k + 1);
  }

  lemma NothingStored(xss: seq<seq<Xattr>>)
    ensures |Stream(Meta([], []))| == 0 && RoomAll(xss[..0]) == 0
  {
  }

  /** One call, in terms of the book of ids. */
  method GenerateOne(store: Store, xs: seq<Xattr>, beyond: (seq<byte>, seq<byte>) -> bool) returns (id: nat)
    requires store.Valid() && AllStorable(xs) && xs != []
    modifies store, store.w
    ensures store.Valid() && Grows(old(store.w.meta), store.w.meta) && old(store.ids) <= store.ids
    ensures |Stream(store.w.meta)| <= |Stream(old(store.w.meta))| + Room(xs)
    ensures Book(store.lists, store.given) == Enter(Book(old(store.lists), old(store.given)), xs, beyond)
    ensures id == IdFor(Book(old(store.lists), old(store.given)), xs, beyond)
  {
    hide Match, ListSum, Storable, Grows, ListsOk, CellsOk, ChainsOk, IdsOk, ListChain, Full, EncodeBlocks, AllStorable,
      Stream, Room;
    id := store.Generate(xs, beyond);
  }

  /** A run of generate_xattrs calls on a fresh store. */
  method GenerateAll(packer: Packer, xss: seq<seq<Xattr>>, beyond: (seq<byte>, seq<byte>) -> bool)
    returns (store: Store, out: seq<nat>)
    requires forall k :: 0 <= k < |xss| ==> AllStorable(xss[k]) && xss[k] != []
    ensures fresh(store) && fresh(store.w) && store.w.packer == packer && |Stream(store.w.meta)| <= RoomAll(xss)
    ensures store.Valid() && Book(store.lists, store.given) == EnterAll(Book(map[], []), xss, beyond)
    ensures |out| == |xss|
    ensures forall k :: 0 <= k < |xss| ==> out[k] == IdFor(EnterAll(Book(map[], []), xss[..k], beyond), xss[k], beyond)
  {
    hide Match, Enter, EnterAll, IdFor, Storable, Grows, ListsOk, CellsOk, ChainsOk, IdsOk, Full, EncodeBlocks,
      AllStorable, Stream, RoomAll, Room;
    store := new Store(packer);
    out := [];
    EnterNone(Book(map[], []), xss, beyond);
    NothingStored(xss);
    for k := 0 to |xss|
      invariant store.Valid() && fresh(store) && fresh(store.w) && store.w.packer == packer
      invariant |Stream(store.w.meta)| <= RoomAll(xss[..k])
      invariant Book(store.lists, store.given) == EnterAll(Book(map[], []), xss[..k], beyond)
      invariant |out| == k
      invariant forall j :: 0 <= j < k ==> out[j] == IdFor(EnterAll(Book(map[], []), xss[..j], beyond), xss[j], beyond)
    {
      var id := GenerateOne(store, xss[k], beyond);
      EnterNext(Book(map[], []), xss, k, beyond);
      RoomNext(xss, k);
      out := out + [id];
    }
    assert xss[..|xss|] == xss;
  }

  // ---------- a merge that loses a value ----------

  const NAME_A: seq<byte> := [117, 115, 101, 114, 46, 97]
  const LONG_VALUE: seq<byte> := [0, 1, 235, 0]
  const SHORT_VALUE: seq<byte> := [0, 1, 235]

  lemma ClashSums()
    ensures ListSum([Xattr(NAME_A, LONG_VALUE)]) == ListSum([Xattr(NAME_A, SHORT_VALUE)])
  {
    var long, short := [Xattr(NAME_A, LONG_VALUE)], [Xattr(NAME_A, SHORT_VALUE)];
    assert long[..0] == [] && short[..0] == [];
    assert Sum(NAME_A[..0], 0) == 0;
    assert NAME_A[..1][..0] == NAME_A[..0] && Sum(NAME_A[..1], 0) == 117;
    assert NAME_A[..2][..1] == NAME_A[..1] && Sum(NAME_A[..2], 0) == 32941;
    assert NAME_A[..3][..2] == NAME_A[..2] && Sum(NAME_A[..3], 0) == 49339;
    assert NAME_A[..4][..3] == NAME_A[..3] && Sum(NAME_A[..4], 0) == 57551;
    assert NAME_A[..5][..4] == NAME_A[..4] && Sum(NAME_A[..5], 0) == 61589;
    assert NAME_A[..6][..5] == NAME_A[..5] && NAME_A[..6] == NAME_A && Sum(NAME_A, 0) == 63659;
    assert Sum(LONG_VALUE[..0], 63659) == 63659;
    assert LONG_VALUE[..1][..0] == LONG_VALUE[..0] && Sum(LONG_VALUE[..1], 63659) == 64597;
    assert LONG_VALUE[..2][..1] == LONG_VALUE[..1] && Sum(LONG_VALUE[..2], 63659) == 65067;
    assert LONG_VALUE[..3][..2] == LONG_VALUE[..2] && LONG_VALUE[..3] == SHORT_VALUE && Sum(SHORT_VALUE, 63659) == 0;
    assert Sum(LONG_VALUE, 63659) == Step(Sum(LONG_VALUE[..3], 63659), 0) == 0;
  }

  /** Two lists with one name, whose values differ in length and collide in the checksum:
      the second is given the id of the first, and its value is lost. */
  lemma MergeLosesValue(beyond: (seq<byte>, seq<byte>) -> bool)
    ensures var first, second := [Xattr(NAME_A, LONG_VALUE)], [Xattr(NAME_A, SHORT_VALUE)];
            var before := EnterAll(Book(map[], []), [first], beyond);
            var id := IdFor(before, second, beyond);
            id < |before.given| && Enter(before, second, beyond) == before && before.given[id] == first &&
              first != second
  {
    var first, second := [Xattr(NAME_A, LONG_VALUE)], [Xattr(NAME_A, SHORT_VALUE)];
    ClashSums();
    hide ListSum;
    assert [first][..0] == [];
    var none := Book(map[], []);
    assert EnterAll(none, [], beyond) == none;
    var before := EnterAll(none, [first], beyond);
    assert before == Enter(none, first, beyond);
    assert Match(none.lists, first, beyond) == None;
    assert before.given == [first];
    assert ListChain(before.lists, ListSum(second)) == [IdEntry(first, 0)];
    assert LONG_VALUE[..|SHORT_VALUE|] == SHORT_VALUE;
    assert SameList(second, first, beyond);
    assert Match(before.lists, second, beyond) == Some(IdEntry(first, 0));
  }
}
