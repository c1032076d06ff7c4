/** The table of user and group ids: entries are found through a hash table, new ones are only
    ever added at the end, and an inode stores the index of its owner's entry. */
module IdTable {
  import opened Bytes
  import opened Compressor
  import opened Tables

  const IDS: nat := 65536
  const ID_ENTRIES: nat := 256

  /** An id with its ISA_UID and ISA_GID flags. */
  datatype Id = Id(id: nat, uid: bool, gid: bool)

  function Hash(id: nat): nat
  {
    id % ID_ENTRIES
  }

  /** What write_id_table stores. */
  function IdsOf(table: seq<Id>): (ids: seq<nat>)
    ensures |ids| == |table| && forall i :: 0 <= i < |ids| ==> ids[i] == table[i].id
  {
    seq(|table|, i requires 0 <= i < |table| => table[i].id)
  }

  /** The index of the last entry with this id. */
  function Latest(ids: seq<nat>, id: nat): (r: Option<nat>)
    ensures r.Some? ==> r.value < |ids| && ids[r.value] == id
    ensures r.None? ==> id !in ids
  {
    if ids == [] then None
    else if ids[|ids| - 1] == id then Some(|ids| - 1)
    else Latest(ids[..|ids| - 1], id)
  }

  /** The indices of one hash chain, newest first. */
  function IdChain(ids: seq<nat>, h: nat): seq<nat>
  {
    if ids == [] then [] else
      var n := |ids| - 1;
      (if Hash(ids[n]) == h then [n] else []) + IdChain(ids[..n], h)
  }

  lemma {:induction false} ChainInside(ids: seq<nat>, h: nat, j: nat)
    requires j < |IdChain(ids, h)|
    ensures IdChain(ids, h)[j] < |ids| && Hash(ids[IdChain(ids, h)[j]]) == h
    decreases |ids|
  {
    var n := |ids| - 1;
    var first := if Hash(ids[n]) == h then [n] else [];
    if j >= |first| {
      ChainInside(ids[..n], h, j - |first|);
      assert IdChain(ids, h)[j] == IdChain(ids[..n], h)[j - |first|];
    }
  }

  /** The first entry of the id's chain that has the id. */
  function FirstIn(ids: seq<nat>, chain: seq<nat>, id: nat): Option<nat>
  {
    if chain == [] then None
    else if chain[0] < |ids| && ids[chain[0]] == id then Some(chain[0])
    else FirstIn(ids, chain[1..], id)
  }

  lemma {:induction false} FirstInPrefix(ids: seq<nat>, n: nat, chain: seq<nat>, id: nat)
    requires n <= |ids| && forall j :: 0 <= j < |chain| ==> chain[j] < n
    ensures FirstIn(ids, chain, id) == FirstIn(ids[..n], chain, id)
    decreases |chain|
  {
    if chain != [] {
      FirstInPrefix(ids, n, chain[1..], id);
    }
  }

  /** Searching the chain finds the last entry of the whole table. */
  lemma {:induction false} ChainFinds(ids: seq<nat>, id: nat)
    ensures FirstIn(ids, IdChain(ids, Hash(id)), id) == Latest(ids, id)
    decreases |ids|
  {
    if ids != [] {
      var n, h := |ids| - 1, Hash(id);
      var rest := IdChain(ids[..n], h);
      ChainFinds(ids[..n], id);
      forall j | 0 <= j < |rest|
        ensures rest[j] < n
      {
        ChainInside(ids[..n], h, j);
      }
      FirstInPrefix(ids, n, rest, id);
      var chain := IdChain(ids, h);
      assert chain == if Hash(ids[n]) == h then [n] + rest else [] + rest;
      if Hash(ids[n]) == h {
        assert chain[0] == n && chain[1..] == rest;
      } else {
        assert chain == rest;
      }
    }
  }

  lemma {:induction false} ChainOther(ids: seq<nat>, id: nat, h: nat)
    ensures IdChain(ids + [id], h) == (if Hash(id) == h then [|ids|] else []) + IdChain(ids, h)
  {
    assert (ids + [id])[..|ids|] == ids;
  }

  /** A missing chain is empty. */
  function ChainOf(chains: map<nat, seq<nat>>, h: nat): seq<nat>
  {
    if h in chains then chains[h] else []
  }

  /** The hash chains of a table with these ids. */
  ghost predicate Hashes(chains: map<nat, seq<nat>>, ids: seq<nat>)
  {
    forall h :: 0 <= h < ID_ENTRIES ==> ChainOf(chains, h) == IdChain(ids, h)
  }

  lemma ChainsGrow(chains: map<nat, seq<nat>>, ids: seq<nat>, id: nat)
    requires Hashes(chains, ids)
    ensures Hashes(chains[Hash(id) := [|ids|] + ChainOf(chains, Hash(id))], ids + [id])
  {
    hide IdChain, Hash;
    var longer := chains[Hash(id) := [|ids|] + ChainOf(chains, Hash(id))];
    forall h | 0 <= h < ID_ENTRIES
      ensures ChainOf(longer, h) == IdChain(ids + [id], h)
    {
      ChainOther(ids, id, h);
      assert [] + IdChain(ids, h) == IdChain(ids, h);
    }
  }

  class Ids {
    var table: seq<Id>
    var chains: map<nat, seq<nat>>

    ghost predicate Valid()
      reads this
    {
      |table| <= IDS && Hashes(chains, IdsOf(table))
    }

    constructor ()
      ensures Valid() && table == []
    {
      table, chains := [], map[];
    }

    /** get_id */
    method GetId(id: nat) returns (r: Option<nat>)
      requires Valid()
      ensures r == Latest(IdsOf(table), id)
    {
      var chain := ChainOf(chains, Hash(id));
      ghost var ids := IdsOf(table);
      ChainFinds(ids, id);
      var i := 0;
      assert chain[0..] == chain;
      while i < |chain|
        invariant 0 <= i <= |chain| && FirstIn(ids, chain[i..], id) == Latest(ids, id)
      {
        ChainInside(ids, Hash(id), i);
        if table[chain[i]].id == id {
          return Some(chain[i]);
        }
        DropNext(chain, i);
        i := i + 1;
      }
      r := None;
    }

    /** create_id */
    method CreateId(id: nat)
      requires Valid() && |table| < IDS
      modifies this
      ensures Valid() && table == old(table) + [Id(id, false, false)]
    {
      hide Hashes, Hash;
      ghost var ids := IdsOf(table);
      var h := Hash(id);
      chains := chains[h := [|table|] + ChainOf(chains, h)];
      table := table + [Id(id, false, false)];
      assert IdsOf(table) == ids + [id];
      ChainsGrow(old(chains), ids, id);
    }

    /** get_uid and get_guid: the index of an entry with the id, which is added when there is
        none; None when the table is full. */
    method GetUid(id: nat, group: bool) returns (r: Option<nat>)
      requires Valid()
      modifies this
      ensures Valid() && IdsOf(old(table)) <= IdsOf(table)
      ensures match Latest(IdsOf(old(table)), id)
              case Some(i) => r == Some(i) && IdsOf(table) == IdsOf(old(table))
              case None =>
                if |old(table)| == IDS then r == None && table == old(table)
                else r == Some(|old(table)|) && IdsOf(table) == IdsOf(old(table)) + [id]
      ensures r.Some? ==> (if group then table[r.value].gid else table[r.value].uid)
    {
      var entry := GetId(id);
      if entry.None? {
        if |table| == IDS {
          return None;
        }
        CreateId(id);
        entry := Some(|table| - 1);
        assert IdsOf(table) == IdsOf(old(table)) + [id];
      }
      ghost var ids := IdsOf(table);
      var e := table[entry.value];
      table := table[entry.value := if group then e.(gid := true) else e.(uid := true)];
      assert IdsOf(table) == ids;
      r := entry;
    }
  }

  // ---------- the stored table ----------

  function EncodeId(id: nat): (row: seq<byte>)
    ensures |row| == 4
  {
    PutLe(id, 4)
  }

  function EncodeIds(ids: seq<nat>): seq<seq<byte>>
  {
    seq(|ids|, i requires 0 <= i < |ids| => EncodeId(ids[i]))
  }

  /** id_table[i] as a reader looks it up. */
  function IdAt(s: seq<byte>, i: nat): Option<nat>
  {
    if 4 * (i + 1) <= |s| then Some(GetLe(RowAt(s, 4, i))) else None
  }

  lemma IdBack(ids: seq<nat>, i: nat)
    requires i < |ids| && ids[i] < 0x1_0000_0000
    ensures |Flatten(EncodeIds(ids))| == 4 * |ids| && IdAt(Flatten(EncodeIds(ids)), i) == Some(ids[i])
  {
    hide RowAt;
    var rows := EncodeIds(ids);
    RowsSize(rows, 4);
    RowBack(rows, 4, i);
    Spans();
    LeRoundTrip(ids[i], 4);
  }

  /** write_id_table for the first n entries. */
  method WriteIdTable(p: Packer, image0: seq<byte>, table: seq<Id>, n: nat) returns (image: seq<byte>, start: nat)
    requires n <= |table|
    ensures image == image0 + TableBytes(p, |image0|, Flatten(EncodeIds(IdsOf(table)[..n])), [])
    ensures start == TableStart(p, |image0|, Flatten(EncodeIds(IdsOf(table)[..n])))
  {
    hide TableBytes, TableStart, EncodeId;
    var data := [];
    for i := 0 to n
      invariant data == Flatten(EncodeIds(IdsOf(table)[..i]))
    {
      data := data + EncodeId(table[i].id);
      var rows := EncodeIds(IdsOf(table)[..i + 1]);
      assert rows[..i] == EncodeIds(IdsOf(table)[..i]);
    }
    image, start := GenericWriteTable(p, image0, data, []);
  }

  /** A request for the index of a user or group id. */
  datatype Request = Request(id: nat, group: bool)

  /** Requests are answered until one fails. */
  method Answer(t: Ids, requests: seq<Request>) returns (out: seq<nat>)
    requires t.Valid()
    modifies t
    ensures t.Valid() && IdsOf(old(t.table)) <= IdsOf(t.table) && |out| <= |requests|
    ensures forall k :: 0 <= k < |out| ==> out[k] < |t.table| && t.table[out[k]].id == requests[k].id
    ensures |out| < |requests| ==> |t.table| == IDS && requests[|out|].id !in IdsOf(t.table)
    ensures forall i :: |old(t.table)| <= i < |t.table| ==> i in out
  {
    hide IdChain, Latest, Ids.Valid;
    out := [];
    for i := 0 to |requests|
      invariant t.Valid() && IdsOf(old(t.table)) <= IdsOf(t.table) && |out| == i
      invariant forall k :: 0 <= k < |out| ==> out[k] < |t.table| && t.table[out[k]].id == requests[k].id
      invariant forall i :: |old(t.table)| <= i < |t.table| ==> i in out
    {
      ghost var before := IdsOf(t.table);
      var r := t.GetUid(requests[i].id, requests[i].group);
      if r.None? {
        return;
      }
      assert forall k :: 0 <= k < |before| ==> t.table[k].id == IdsOf(t.table)[k] == before[k];
      out := out + [r.value];
    }
  }

  /** Reading the ids of an existing table: one create_id after another. */
  method Load(ids: seq<nat>) returns (t: Ids)
    requires |ids| <= IDS
    ensures fresh(t) && t.Valid() && IdsOf(t.table) == ids
  {
    hide IdChain;
    t := new Ids();
    for i := 0 to |ids|
      invariant fresh(t) && t.Valid() && IdsOf(t.table) == ids[..i]
    {
      t.CreateId(ids[i]);
      assert IdsOf(t.table) == ids[..i] + [ids[i]];
    }
  }

  /** An aborted append: whatever owners have been asked for, putting id_count back writes the
      table that was read. */
  method AbortIds(p: Packer, image0: seq<byte>, ids: seq<nat>,
                  requests: seq<Request>)
    returns (image: seq<byte>, start: nat)
    requires |ids| <= IDS
    ensures image == image0 + TableBytes(p, |image0|, Flatten(EncodeIds(ids)), [])
    ensures start == TableStart(p, |image0|, Flatten(EncodeIds(ids)))
  {
    hide TableBytes, TableStart, IdChain, EncodeIds;
    var t := Load(ids);
    var saved := |t.table|;
    var _ := Answer(t, requests);
    assert IdsOf(t.table)[..saved] == ids;
    image, start := WriteIdTable(p, image0, t.table, saved);
  }

  /** The index an inode was given leads, through the table written and read again, to the id
      that was asked for. */
  lemma OwnerComesBack(p: Packer, image: seq<byte>, base: nat, ids: seq<nat>, i: nat)
    requires Lossless(p.codec) && i < |ids| && ids[i] < 0x1_0000_0000 && |image| < Span(8)
    requires Holds(image, base, TableBytes(p, base, Flatten(EncodeIds(ids)), []))
    ensures var found := ReadIndexed(p.codec, image, TableStart(p, base, Flatten(EncodeIds(ids))), 4 * |ids|);
            found.Some? && IdAt(found.value, i) == Some(ids[i])
  {
    hide TableBytes, TableStart, EncodeIds, ReadIndexed, IdAt, Lossless;
    IdBack(ids, i);
    TableReads(p, image, base, Flatten(EncodeIds(ids)), []);
  }
}
