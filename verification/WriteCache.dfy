/** The cache of compressed blocks between the deflators, the main thread and the writer:
    buffers are hashed under the address they will be written to, written in the order
    they were queued, and recycled through a first-in first-out free list. A duplicate
    file's blocks are given up again, and their addresses reused, while their buffers are
    still hashed or even queued. */
module WriteCache {
  import opened Bytes
  import opened LeavingOrder

  /** The output file; None where nothing has been written. */
  type Disk = int -> Option<byte>

  datatype Buf = Buf(index: int, data: seq<byte>)

  /** A queued write belongs to a block buffer or to a fragment. */
  datatype Tag = Block(id: nat) | Frag(n: nat)
  datatype Item = Item(addr: int, data: seq<byte>, tag: Tag)

  /** A part of the output that is in use. */
  datatype Extent = FileBlock(data: seq<byte>) | FragBlock(data: seq<byte>, n: nat)

  /** - owned: buffers deflators hold or have handed to main, not hashed;
      - hashed: the hash chains, newest first;
      - free: the free list, oldest first;
      - queue: the writer's queue;
      - held: the file's buffers main keeps back, in order;
      - pins: buffers main has looked up, `limbo` those with no other user;
      - missed: addresses main looked up in vain and now reads from the disk;
      - live: the extents in use, which no thread stores. */
  datatype Cache = Cache(bufs: map<nat, Buf>, owned: set<nat>, hashed: seq<nat>, free: seq<nat>,
                         queue: seq<Item>, held: seq<nat>, limbo: seq<nat>, pins: set<nat>, missed: set<int>,
                         disk: Disk, live: map<int, Extent>)

  // ---------- the disk and the writer's queue ----------

  function WriteAt(disk: Disk, addr: int, data: seq<byte>): Disk
  {
    (x: int) => if addr <= x < addr + |data| then Some(data[x - addr]) else disk(x)
  }

  function Cut(disk: Disk, size: int): Disk
  {
    (x: int) => if x < size then disk(x) else None
  }

  ghost predicate OnDisk(disk: Disk, addr: int, data: seq<byte>)
  {
    forall x :: addr <= x < addr + |data| ==> disk(x) == Some(data[x - addr])
  }

  ghost predicate Clear(it: Item, addr: int, n: nat)
  {
    it.addr + |it.data| <= addr || addr + n <= it.addr
  }

  ghost predicate AllClear(q: seq<Item>, addr: int, n: nat)
  {
    forall k :: 0 <= k < |q| ==> Clear(q[k], addr, n)
  }

  ghost predicate ComingAt(q: seq<Item>, it: Item, k: nat)
  {
    k < |q| && q[k] == it && AllClear(q[k + 1..], it.addr, |it.data|)
  }

  /** The item is queued and nothing behind it will overwrite it. */
  ghost predicate Coming(q: seq<Item>, it: Item)
  {
    exists k :: ComingAt(q, it, k)
  }

  lemma ClearSnoc(q: seq<Item>, it: Item, addr: int, n: nat)
    requires AllClear(q, addr, n) && Clear(it, addr, n)
    ensures AllClear(q + [it], addr, n)
  {
  }

  lemma ComingSnoc(q: seq<Item>, it: Item, last: Item)
    requires Coming(q, it) && Clear(last, it.addr, |it.data|)
    ensures Coming(q + [last], it)
  {
    var k: nat :| ComingAt(q, it, k);
    assert (q + [last])[k + 1..] == q[k + 1..] + [last];
    assert ComingAt(q + [last], it, k);
  }

  lemma ComingNew(q: seq<Item>, it: Item)
    ensures Coming(q + [it], it)
  {
    assert ComingAt(q + [it], it, |q|);
  }

  /** Writing the head either writes the item or keeps it coming. */
  lemma ComingPop(q: seq<Item>, it: Item, disk: Disk)
    requires q != [] && Coming(q, it)
    ensures Coming(q[1..], it) ||
            (q[0] == it && AllClear(q[1..], it.addr, |it.data|) &&
              OnDisk(WriteAt(disk, q[0].addr, q[0].data), it.addr, it.data))
  {
    var k: nat :| ComingAt(q, it, k);
    if k > 0 {
      assert q[1..][k..] == q[k + 1..];
      assert ComingAt(q[1..], it, k - 1);
    } else {
      assert q[0] == it && AllClear(q[1..], it.addr, |it.data|);
    }
  }

  lemma WrittenPop(q: seq<Item>, disk: Disk, addr: int, data: seq<byte>)
    requires q != [] && AllClear(q, addr, |data|) && OnDisk(disk, addr, data)
    ensures AllClear(q[1..], addr, |data|) && OnDisk(WriteAt(disk, q[0].addr, q[0].data), addr, data)
  {
    assert Clear(q[0], addr, |data|);
  }

  lemma ComingNotClear(q: seq<Item>, it: Item, n: nat)
    requires it in q && it.data != [] && n > 0
    ensures !AllClear(q, it.addr, n)
  {
    var k :| 0 <= k < |q| && q[k] == it;
    assert !Clear(q[k], it.addr, n);
  }

  /** The block buffers in the queue, in order. */
  function Ids(q: seq<Item>): seq<nat>
  {
    if q == [] then [] else (if q[0].tag.Block? then [q[0].tag.id] else []) + Ids(q[1..])
  }

  lemma {:induction false} IdsSnoc(q: seq<Item>, it: Item)
    ensures Ids(q + [it]) == Ids(q) + if it.tag.Block? then [it.tag.id] else []
  {
    if q == [] {
      assert q + [it] == [it];
    } else {
      assert (q + [it])[1..] == q[1..] + [it];
      IdsSnoc(q[1..], it);
      Assoc(if q[0].tag.Block? then [q[0].tag.id] else [], Ids(q[1..]), if it.tag.Block? then [it.tag.id] else []);
    }
  }

  lemma {:induction false} InIds(q: seq<Item>, id: nat)
    ensures id in Ids(q) <==> exists k :: 0 <= k < |q| && q[k].tag == Block(id)
  {
    if q != [] {
      InIds(q[1..], id);
      if id in Ids(q[1..]) {
        var k :| 0 <= k < |q[1..]| && q[1..][k].tag == Block(id);
        assert q[k + 1].tag == Block(id);
      }
      if exists k :: 0 <= k < |q| && q[k].tag == Block(id) {
        var k :| 0 <= k < |q| && q[k].tag == Block(id);
        if k > 0 {
          assert q[1..][k - 1].tag == Block(id);
        }
      }
    }
  }

  // ---------- lookup ----------

  /** cache_lookup: the newest hashed buffer with this index. */
  function First(hashed: seq<nat>, bufs: map<nat, Buf>, addr: int): (r: Option<nat>)
    ensures r.Some? ==> r.value in hashed && r.value in bufs && bufs[r.value].index == addr
    ensures r.None? ==> forall x :: x in hashed && x in bufs ==> bufs[x].index != addr
  {
    if hashed == [] then None
    else if hashed[0] in bufs && bufs[hashed[0]].index == addr then Some(hashed[0])
    else First(hashed[1..], bufs, addr)
  }

  function Newest(c: Cache, addr: int): Option<nat>
  {
    First(c.hashed, c.bufs, addr)
  }

  lemma {:induction false} FirstWithout(hashed: seq<nat>, bufs: map<nat, Buf>, addr: int, h: nat)
    requires First(hashed, bufs, addr).Some? && First(hashed, bufs, addr).value != h
    ensures First(Without(hashed, h), bufs, addr) == First(hashed, bufs, addr)
  {
    if hashed[0] == h {
      assert Without(hashed, h) == hashed[1..];
    } else if hashed[0] in bufs && bufs[hashed[0]].index == addr {
      assert Without(hashed, h)[0] == hashed[0];
    } else {
      FirstWithout(hashed[1..], bufs, addr, h);
      assert Without(hashed, h)[1..] == Without(hashed[1..], h);
    }
  }

  lemma {:induction false} FirstNone(hashed: seq<nat>, bufs: map<nat, Buf>, addr: int)
    requires forall x :: x in hashed ==> x !in bufs || bufs[x].index != addr
    ensures First(hashed, bufs, addr) == None
  {
  }

  lemma {:induction false} FirstSame(hashed: seq<nat>, a: map<nat, Buf>, b: map<nat, Buf>, addr: int)
    requires forall x :: x in hashed ==> x in a && x in b && a[x] == b[x]
    ensures First(hashed, a, addr) == First(hashed, b, addr)
  {
    if hashed != [] {
      FirstSame(hashed[1..], a, b, addr);
    }
  }

  // ---------- the invariant ----------

  /** The order in which buffers come free: the free list, then the queue, then those main
      still keeps. */
  ghost function Leaving(c: Cache): seq<nat>
  {
    c.free + Ids(c.queue) + c.held + c.limbo
  }

  /** Every hashed buffer has exactly one home. */
  ghost predicate Homes(c: Cache)
  {
    NoDup(Leaving(c)) && NoDup(c.hashed) && (forall x :: x in Leaving(c) <==> x in c.hashed) &&
    (forall x :: x in c.hashed ==> x in c.bufs && x !in c.owned) && (forall x :: x in c.owned ==> x in c.bufs) &&
    (forall x :: x in c.pins ==> x in c.hashed && x !in c.free) && (forall x :: x in c.limbo ==> x in c.pins)
  }

  ghost predicate ItemOk(c: Cache, it: Item)
  {
    it.data != [] && (it.tag.Block? ==> it.tag.id in c.bufs && c.bufs[it.tag.id] == Buf(it.addr, it.data))
  }

  ghost predicate ItemsOk(c: Cache)
  {
    forall k :: 0 <= k < |c.queue| ==> ItemOk(c, c.queue[k])
  }

  /** Extents in use do not overlap. */
  ghost predicate Regions(live: map<int, Extent>)
  {
    (forall a :: a in live ==> live[a].data != []) &&
    forall a, b :: a in live && b in live && a < b ==> a + |live[a].data| <= b
  }

  ghost predicate IsBlock(c: Cache, a: int)
  {
    a in c.live && c.live[a].FileBlock?
  }

  ghost predicate Written(c: Cache, a: int)
    requires a in c.live
  {
    AllClear(c.queue, a, |c.live[a].data|) && OnDisk(c.disk, a, c.live[a].data)
  }

  /** Where the live block's newest buffer is. */
  ghost predicate OnItsWay(c: Cache, a: int, y: nat)
    requires a in c.live
  {
    y in c.held || Coming(c.queue, Item(a, c.live[a].data, Block(y))) || Written(c, a)
  }

  /** The buffer a lookup of a live block finds is the right one; when it finds none, the
      disk has the block. A stale buffer of the same address comes free first. */
  ghost predicate BlockOk(c: Cache, a: int)
    requires a in c.live
  {
    match Newest(c, a)
    case None => Written(c, a)
    case Some(y) =>
      y in c.bufs && c.bufs[y].data == c.live[a].data && OnItsWay(c, a, y) &&
      forall x :: x in c.hashed && x in c.bufs && c.bufs[x].index == a && x != y ==> Precedes(Leaving(c), x, y)
  }

  ghost predicate FragOk(c: Cache, a: int)
    requires a in c.live && c.live[a].FragBlock?
  {
    Coming(c.queue, Item(a, c.live[a].data, Frag(c.live[a].n))) || Written(c, a)
  }

  ghost predicate ExtentsOk(c: Cache)
  {
    forall a :: a in c.live ==> if c.live[a].FileBlock? then BlockOk(c, a) else FragOk(c, a)
  }

  ghost predicate PinOk(c: Cache, p: nat)
  {
    p in c.bufs && IsBlock(c, c.bufs[p].index) && Newest(c, c.bufs[p].index) == Some(p)
  }

  ghost predicate HeldOk(c: Cache, h: nat)
  {
    h in c.bufs && c.bufs[h].data != [] &&
    (IsBlock(c, c.bufs[h].index) ==>
       Newest(c, c.bufs[h].index) == Some(h) && c.bufs[h].data == c.live[c.bufs[h].index].data)
  }

  ghost predicate UsersOk(c: Cache)
  {
    (forall p :: p in c.pins ==> PinOk(c, p)) && (forall h :: h in c.held ==> HeldOk(c, h)) &&
    forall a :: a in c.missed ==> IsBlock(c, a) && Written(c, a)
  }

  ghost predicate Inv(c: Cache)
  {
    Homes(c) && ItemsOk(c) && Regions(c.live) && ExtentsOk(c) && UsersOk(c)
  }

  // ---------- the steps ----------

  /** Nothing in use overlaps the n bytes at addr. */
  ghost predicate Vacant(c: Cache, addr: int, n: nat)
  {
    forall a :: a in c.live ==> a + |c.live[a].data| <= addr || addr + n <= a
  }

  /** cache_alloc: a deflator gets a new buffer. */
  ghost predicate CanAlloc(c: Cache, id: nat) { id !in c.bufs }

  function Alloc(c: Cache, id: nat): Cache
  {
    c.(bufs := c.bufs[id := Buf(0, [])], owned := c.owned + {id})
  }

  /** cache_freelist: a deflator gets the oldest free buffer, which leaves the hash table. */
  ghost predicate CanRecycle(c: Cache) { c.free != [] }

  function Recycle(c: Cache): Cache
    requires c.free != []
  {
    c.(free := c.free[1..], hashed := Without(c.hashed, c.free[0]), owned := c.owned + {c.free[0]})
  }

  /** A deflator fills its buffer. */
  ghost predicate CanFill(c: Cache, id: nat) { id in c.owned }

  function Fill(c: Cache, id: nat, buf: Buf): Cache
  {
    c.(bufs := c.bufs[id := buf])
  }

  /** Main gives a compressed block its address and queues it, or keeps it back. */
  ghost predicate CanPlace(c: Cache, id: nat, addr: int, hold: bool)
  {
    id in c.owned && id in c.bufs && c.bufs[id].data != [] && c.pins == {} && Vacant(c, addr, |c.bufs[id].data|) &&
    (!hold ==> c.held == []) && forall h :: h in c.held ==> h in c.bufs && c.bufs[h].index != addr
  }

  function Place(c: Cache, id: nat, addr: int, hold: bool): Cache
    requires id in c.bufs
  {
    var d := c.bufs[id].data;
    c.(bufs := c.bufs[id := Buf(addr, d)], owned := c.owned - {id}, hashed := [id] + c.hashed,
       held := if hold then c.held + [id] else c.held,
       queue := if hold then c.queue else c.queue + [Item(addr, d, Block(id))],
       live := c.live[addr := FileBlock(d)])
  }

  /** Main queues the first of the buffers it kept back. */
  ghost predicate CanQueueHeld(c: Cache)
  {
    c.held != [] && c.missed == {} && c.held[0] in c.bufs && IsBlock(c, c.bufs[c.held[0]].index)
  }

  function QueueHeld(c: Cache): Cache
    requires c.held != [] && c.held[0] in c.bufs
  {
    var b := c.bufs[c.held[0]];
    c.(held := c.held[1..], queue := c.queue + [Item(b.index, b.data, Block(c.held[0]))])
  }

  /** Main gives up file blocks: their addresses will be used again. */
  ghost predicate CanForget(c: Cache, gone: set<int>)
  {
    c.pins == {} && c.missed == {} && forall a :: a in gone ==> IsBlock(c, a)
  }

  function Forget(c: Cache, gone: set<int>): Cache
  {
    c.(live := c.live - gone)
  }

  /** Main puts back the first of the buffers it kept, after giving up its block. */
  ghost predicate CanDropHeld(c: Cache)
  {
    c.held != [] && c.held[0] in c.bufs && c.held[0] !in c.pins && !IsBlock(c, c.bufs[c.held[0]].index)
  }

  function DropHeld(c: Cache): Cache
    requires c.held != []
  {
    c.(held := c.held[1..], free := c.free + [c.held[0]])
  }

  /** The writer writes the head of its queue and puts the buffer. */
  ghost predicate CanWrite(c: Cache) { c.queue != [] }

  function Write(c: Cache): Cache
    requires c.queue != []
  {
    var it := c.queue[0];
    var w := c.(queue := c.queue[1..], disk := WriteAt(c.disk, it.addr, it.data));
    match it.tag
    case Frag(_) => w
    case Block(id) => if id in c.pins then w.(limbo := c.limbo + [id]) else w.(free := c.free + [id])
  }

  /** Main looks up a block and finds a buffer. */
  ghost predicate CanPin(c: Cache, a: int) { IsBlock(c, a) && Newest(c, a).Some? }

  function Pin(c: Cache, a: int): Cache
    requires Newest(c, a).Some?
  {
    var y := Newest(c, a).value;
    if y in c.free then c.(pins := c.pins + {y}, free := Without(c.free, y), limbo := c.limbo + [y])
    else c.(pins := c.pins + {y})
  }

  ghost predicate CanUnpin(c: Cache, y: nat) { y in c.pins }

  function Unpin(c: Cache, y: nat): Cache
  {
    if y in c.limbo then c.(pins := c.pins - {y}, free := c.free + [y], limbo := Without(c.limbo, y))
    else c.(pins := c.pins - {y})
  }

  /** Main looks up a block in vain and will read the disk. */
  ghost predicate CanMiss(c: Cache, a: int) { IsBlock(c, a) && Newest(c, a).None? }

  function Miss(c: Cache, a: int): Cache { c.(missed := c.missed + {a}) }

  function DiskRead(c: Cache, a: int): Cache { c.(missed := c.missed - {a}) }

  /** A compressed fragment gets its address and is queued. */
  ghost predicate CanQueueFrag(c: Cache, addr: int, data: seq<byte>) { data != [] && Vacant(c, addr, |data|) }

  function QueueFrag(c: Cache, n: nat, addr: int, data: seq<byte>): Cache
  {
    c.(live := c.live[addr := FragBlock(data, n)], queue := c.queue + [Item(addr, data, Frag(n))])
  }

  /** Main cuts the output file once the writer has caught up. */
  ghost predicate CanTruncate(c: Cache, size: int)
  {
    c.queue == [] && forall a :: a in c.live ==> a + |c.live[a].data| <= size
  }

  function Truncate(c: Cache, size: int): Cache { c.(disk := Cut(c.disk, size)) }

  // ---------- every step keeps the invariant ----------

  /** A step that leaves the hash table and the buffers in it alone. */
  ghost predicate SameTable(c: Cache, d: Cache)
  {
    c.hashed == d.hashed && forall x :: x in c.hashed ==> x in c.bufs && x in d.bufs && c.bufs[x] == d.bufs[x]
  }

  /** The stale buffers of this address still come free before the newest one. */
  ghost predicate OrderKept(c: Cache, d: Cache, a: int)
  {
    Newest(c, a).Some? ==>
      forall x :: StaleBefore(c, a, x) ==> Precedes(Leaving(d), x, Newest(c, a).value)
  }

  ghost predicate StaleBefore(c: Cache, a: int, x: nat)
  {
    Newest(c, a).Some? && x in c.hashed && x in c.bufs && c.bufs[x].index == a && x != Newest(c, a).value &&
    Precedes(Leaving(c), x, Newest(c, a).value)
  }

  lemma BlockFrame(c: Cache, d: Cache, a: int)
    requires SameTable(c, d) && OrderKept(c, d, a) && a in c.live && a in d.live && c.live[a] == d.live[a] &&
             BlockOk(c, a)
    requires Newest(c, a).None? && Written(c, a) ==> Written(d, a)
    requires Newest(c, a).Some? && OnItsWay(c, a, Newest(c, a).value) ==> OnItsWay(d, a, Newest(c, a).value)
    ensures BlockOk(d, a) && Newest(c, a) == Newest(d, a)
  {
    hide First, Written, OnItsWay, Leaving, Precedes;
    FirstSame(c.hashed, c.bufs, d.bufs, a);
    if Newest(c, a).Some? {
      var y := Newest(c, a).value;
      forall x | x in d.hashed && x in d.bufs && d.bufs[x].index == a && x != y
        ensures Precedes(Leaving(d), x, y)
      {
        assert StaleBefore(c, a, x);
      }
    }
  }

  /** The extent is kept, and its bytes are at least as far along. */
  ghost predicate Carried(c: Cache, d: Cache, a: int)
  {
    a in c.live && a in d.live && c.live[a] == d.live[a] &&
    (c.live[a].FileBlock? && (Newest(c, a).None? || a in d.missed) ==> Written(c, a) ==> Written(d, a)) &&
    (c.live[a].FileBlock? && Newest(c, a).Some? && OnItsWay(c, a, Newest(c, a).value) ==>
       OnItsWay(d, a, Newest(c, a).value)) &&
    (c.live[a].FragBlock? && FragOk(c, a) ==> FragOk(d, a))
  }

  ghost predicate NewFrag(d: Cache, a: int)
  {
    a in d.live && d.live[a].FragBlock? && FragOk(d, a)
  }

  /** The users of the new state were users before, of blocks that are still in use. */
  ghost predicate FewerUsers(c: Cache, d: Cache)
  {
    (forall p :: p in d.pins ==> p in c.pins && p in c.bufs && c.bufs[p].index in d.live) &&
    (forall h :: h in d.held ==> h in c.held) && (forall a :: a in d.missed ==> a in c.missed && a in d.live)
  }

  lemma FrameKeeps(c: Cache, d: Cache)
    requires Inv(c) && SameTable(c, d) && Homes(d) && ItemsOk(d) && Regions(d.live) && FewerUsers(c, d)
    requires forall a :: a in d.live ==> Carried(c, d, a) || (a !in c.live && NewFrag(d, a))
    requires forall a :: IsBlock(d, a) ==> OrderKept(c, d, a)
    ensures Inv(d)
  {
    hide First, Written, OnItsWay, Leaving, FragOk, Homes, ItemsOk, Regions, OrderKept;
    forall a | a in d.live
      ensures if d.live[a].FileBlock? then BlockOk(d, a) else FragOk(d, a)
      ensures a in c.live ==> Newest(c, a) == Newest(d, a)
    {
      if Carried(c, d, a) && d.live[a].FileBlock? {
        BlockFrame(c, d, a);
      } else if a in c.live {
        FirstSame(c.hashed, c.bufs, d.bufs, a);
      }
    }
    forall p | p in d.pins
      ensures PinOk(d, p)
    {
      PinsHashed(c, p);
      assert PinOk(c, p);
    }
    forall h | h in d.held
      ensures HeldOk(d, h)
    {
      HeldHashed(c, h);
      assert HeldOk(c, h);
    }
  }

  lemma PinsHashed(c: Cache, p: nat)
    requires Homes(c) && p in c.pins
    ensures p in c.hashed
  {
  }

  lemma HeldHashed(c: Cache, h: nat)
    requires Homes(c) && h in c.held
    ensures h in c.hashed
  {
    assert h in Leaving(c);
  }

  lemma QueuedHashed(c: Cache, k: nat)
    requires Homes(c) && k < |c.queue| && c.queue[k].tag.Block?
    ensures c.queue[k].tag.id in c.hashed
  {
    InIds(c.queue, c.queue[k].tag.id);
    assert c.queue[k].tag.id in Leaving(c);
  }

  /** Only buffers that are not hashed change. */
  lemma OwnedKeeps(c: Cache, d: Cache)
    requires Inv(c) && d == c.(bufs := d.bufs, owned := d.owned)
    requires forall x :: x in c.hashed ==> x in d.bufs && c.bufs[x] == d.bufs[x] && x !in d.owned
    requires forall x :: x in d.owned ==> x in d.bufs
    ensures Inv(d)
  {
    hide Precedes, BlockOk, FragOk;
    forall k | 0 <= k < |d.queue|
      ensures ItemOk(d, d.queue[k])
    {
      assert ItemOk(c, c.queue[k]);
      if c.queue[k].tag.Block? {
        QueuedHashed(c, k);
      }
    }
    forall a | a in d.live
      ensures Carried(c, d, a)
    {
      CarriedSame(c, d, a);
    }
    UsersIndexed(c);
    FrameKeeps(c, d);
  }

  lemma CarriedSame(c: Cache, d: Cache, a: int)
    requires a in c.live && a in d.live && c.live[a] == d.live[a] && c.queue == d.queue && c.disk == d.disk
    requires forall h :: h in c.held ==> h in d.held
    ensures Carried(c, d, a)
  {
    hide Coming, AllClear, OnDisk;
  }

  lemma UsersIndexed(c: Cache)
    requires UsersOk(c)
    ensures FewerUsers(c, c)
  {
    forall p | p in c.pins
      ensures p in c.bufs && c.bufs[p].index in c.live
    {
      assert PinOk(c, p);
    }
  }

  lemma AllocKeeps(c: Cache, id: nat)
    requires Inv(c) && CanAlloc(c, id)
    ensures Inv(Alloc(c, id))
  {
    hide ExtentsOk, UsersOk, ItemsOk, Regions;
    OwnedKeeps(c, Alloc(c, id));
  }

  lemma FillKeeps(c: Cache, id: nat, buf: Buf)
    requires Inv(c) && CanFill(c, id)
    ensures Inv(Fill(c, id, buf))
  {
    hide ExtentsOk, UsersOk, ItemsOk, Regions;
    OwnedKeeps(c, Fill(c, id, buf));
  }

  /** Appending a queue item keeps every extent it is clear of. */
  lemma CarriedSnoc(c: Cache, d: Cache, a: int, it: Item)
    requires a in c.live && a in d.live && c.live[a] == d.live[a] && d.queue == c.queue + [it] && c.disk == d.disk
    requires Clear(it, a, |c.live[a].data|)
    requires forall h :: h in c.held ==> h in d.held || Newest(c, a) != Some(h)
    ensures Carried(c, d, a)
  {
    hide Coming, AllClear, OnDisk, Clear, First;
    var n := |c.live[a].data|;
    if AllClear(c.queue, a, n) {
      ClearSnoc(c.queue, it, a, n);
    }
    if Newest(c, a).Some? {
      var w := Item(a, c.live[a].data, Block(Newest(c, a).value));
      if Coming(c.queue, w) {
        ComingSnoc(c.queue, w, it);
      }
    }
    if c.live[a].FragBlock? {
      var w := Item(a, c.live[a].data, Frag(c.live[a].n));
      if Coming(c.queue, w) {
        ComingSnoc(c.queue, w, it);
      }
    }
  }

  lemma QueueHeldLeaving(c: Cache)
    requires c.held != [] && c.held[0] in c.bufs
    ensures Leaving(QueueHeld(c)) == Leaving(c)
  {
    var d, h := QueueHeld(c), c.held[0];
    IdsSnoc(c.queue, Item(c.bufs[h].index, c.bufs[h].data, Block(h)));
    var ids := Ids(c.queue);
    assert [h] + d.held == c.held;
    Assoc(ids, [h], d.held);
    Assoc(c.free, ids + [h], d.held);
    Assoc(c.free, ids, c.held);
  }

  lemma QueueHeldKeeps(c: Cache)
    requires Inv(c) && CanQueueHeld(c)
    ensures Inv(QueueHeld(c))
  {
    hide Precedes, BlockOk, FragOk, First, NoDup, OrderKept, Leaving;
    var d, h := QueueHeld(c), c.held[0];
    var b := c.bufs[h];
    var it := Item(b.index, b.data, Block(h));
    assert HeldOk(c, h);
    QueueHeldLeaving(c);
    forall k | 0 <= k < |d.queue|
      ensures ItemOk(d, d.queue[k])
    {
      assert k < |c.queue| ==> ItemOk(c, c.queue[k]);
    }
    forall a | a in d.live
      ensures Carried(c, d, a)
    {
      if a == b.index {
        ComingNew(c.queue, it);
      } else {
        HeldApart(c, h, a);
        CarriedSnoc(c, d, a, it);
      }
    }
    forall a | IsBlock(d, a)
      ensures OrderKept(c, d, a)
    {
      SameOrder(c, d, a);
    }
    assert Homes(d);
    UsersIndexed(c);
    FrameKeeps(c, d);
  }

  lemma HeldApart(c: Cache, h: nat, a: int)
    requires Regions(c.live) && HeldOk(c, h) && IsBlock(c, c.bufs[h].index) && a in c.live && a != c.bufs[h].index
    ensures Clear(Item(c.bufs[h].index, c.bufs[h].data, Block(h)), a, |c.live[a].data|)
    ensures Newest(c, a) != Some(h)
  {
  }

  lemma QueueFragKeeps(c: Cache, n: nat, addr: int, data: seq<byte>)
    requires Inv(c) && CanQueueFrag(c, addr, data)
    ensures Inv(QueueFrag(c, n, addr, data))
  {
    hide Precedes, BlockOk, FragOk, First;
    var d, it := QueueFrag(c, n, addr, data), Item(addr, data, Frag(n));
    IdsSnoc(c.queue, it);
    assert addr !in c.live;
    forall k | 0 <= k < |d.queue|
      ensures ItemOk(d, d.queue[k])
    {
      assert k < |c.queue| ==> ItemOk(c, c.queue[k]);
    }
    forall a | a in d.live
      ensures Carried(c, d, a) || (a !in c.live && NewFrag(d, a))
    {
      if a == addr {
        ComingNew(c.queue, it);
        assert FragOk(d, a) by { assert Coming(d.queue, it); FragComing(d, a); }
      } else {
        CarriedSnoc(c, d, a, it);
      }
    }
    assert Ids(d.queue) == Ids(c.queue);
    assert Leaving(d) == Leaving(c);
    forall a | IsBlock(d, a)
      ensures OrderKept(c, d, a)
    {
      SameOrder(c, d, a);
    }
    assert Homes(d);
    UsersIndexed(c);
    FrameKeeps(c, d);
  }

  lemma FragComing(c: Cache, a: int)
    requires a in c.live && c.live[a].FragBlock? && Coming(c.queue, Item(a, c.live[a].data, Frag(c.live[a].n)))
    ensures FragOk(c, a)
  {
  }

  lemma ForgetKeeps(c: Cache, gone: set<int>)
    requires Inv(c) && CanForget(c, gone)
    ensures Inv(Forget(c, gone))
  {
    hide Precedes, BlockOk, FragOk, First;
    var d := Forget(c, gone);
    forall k | 0 <= k < |d.queue|
      ensures ItemOk(d, d.queue[k])
    {
      assert ItemOk(c, c.queue[k]);
    }
    forall a | a in d.live
      ensures Carried(c, d, a)
    {
      CarriedSame(c, d, a);
    }
    FrameKeeps(c, d);
  }

  lemma TruncateKeeps(c: Cache, size: int)
    requires Inv(c) && CanTruncate(c, size)
    ensures Inv(Truncate(c, size))
  {
    hide Precedes, BlockOk, FragOk, First, Coming;
    var d := Truncate(c, size);
    forall a | a in d.live
      ensures Carried(c, d, a)
    {
      CarriedCut(c, a, size);
    }
    UsersIndexed(c);
    FrameKeeps(c, d);
  }

  lemma CarriedCut(c: Cache, a: int, size: int)
    requires a in c.live && a + |c.live[a].data| <= size
    ensures Carried(c, Truncate(c, size), a)
  {
    hide Coming, First, AllClear;
  }

  lemma MissKeeps(c: Cache, a: int)
    requires Inv(c) && CanMiss(c, a)
    ensures Inv(Miss(c, a))
  {
    hide Precedes, FragOk, First, Written, OnItsWay;
    assert BlockOk(c, a);
    var d := Miss(c, a);
    SameExtents(c, d);
    forall p | p in d.pins
      ensures PinOk(d, p)
    {
      assert PinOk(c, p);
    }
    forall h | h in d.held
      ensures HeldOk(d, h)
    {
      assert HeldOk(c, h);
    }
    forall b | b in d.missed
      ensures IsBlock(d, b) && Written(d, b)
    {
      assert Written(c, b);
      SameWritten(c, d, b);
    }
    assert ItemsOk(d) by {
      assert forall k :: 0 <= k < |d.queue| ==> ItemOk(c, c.queue[k]) && ItemOk(d, d.queue[k]);
    }
  }

  lemma SameWritten(c: Cache, d: Cache, a: int)
    requires a in c.live && d.live == c.live && d.queue == c.queue && d.disk == c.disk
    ensures Written(c, a) == Written(d, a)
  {
  }

  lemma SameExtents(c: Cache, d: Cache)
    requires ExtentsOk(c) && SameTable(c, d) && Leaving(c) == Leaving(d) && d.live == c.live && d.queue == c.queue &&
             d.disk == c.disk && d.held == c.held
    ensures ExtentsOk(d)
  {
    hide First, Leaving, Coming, AllClear, OnDisk;
    forall a | a in d.live
      ensures if d.live[a].FileBlock? then BlockOk(d, a) else FragOk(d, a)
    {
      if d.live[a].FileBlock? {
        BlockFrame(c, d, a);
      } else {
        assert FragOk(c, a);
      }
    }
  }

  lemma DiskReadKeeps(c: Cache, a: int)
    requires Inv(c)
    ensures Inv(DiskRead(c, a))
  {
    hide Precedes, BlockOk, FragOk, First;
    var d := DiskRead(c, a);
    forall k | 0 <= k < |d.queue|
      ensures ItemOk(d, d.queue[k])
    {
      assert ItemOk(c, c.queue[k]);
    }
    forall b | b in d.live
      ensures Carried(c, d, b)
    {
      CarriedSame(c, d, b);
    }
    UsersIndexed(c);
    FrameKeeps(c, d);
  }

  lemma CarriedPop(c: Cache, d: Cache, a: int)
    requires c.queue != [] && a in c.live && d.live == c.live && d.queue == c.queue[1..] && d.held == c.held
    requires d.disk == WriteAt(c.disk, c.queue[0].addr, c.queue[0].data)
    ensures Carried(c, d, a)
  {
    hide Coming, AllClear, OnDisk, First, WriteAt;
    var e := c.live[a];
    if Written(c, a) {
      WrittenPop(c.queue, c.disk, a, e.data);
    }
    if Newest(c, a).Some? && Coming(c.queue, Item(a, e.data, Block(Newest(c, a).value))) {
      ComingPop(c.queue, Item(a, e.data, Block(Newest(c, a).value)), c.disk);
    }
    if e.FragBlock? && Coming(c.queue, Item(a, e.data, Frag(e.n))) {
      ComingPop(c.queue, Item(a, e.data, Frag(e.n)), c.disk);
    }
  }

  /** Moving a pinned buffer to the end of the leaving order. */
  lemma MovedToEnd(c: Cache, d: Cache, p: seq<nat>, q: seq<nat>, z: nat, a: int)
    requires Leaving(c) == p + [z] + q && Leaving(d) == p + q + [z] && NoDup(Leaving(c))
    requires z in c.bufs && Newest(c, c.bufs[z].index) == Some(z)
    ensures OrderKept(c, d, a)
  {
    hide First, Leaving;
    assert p + q == (p + q) + [];
    assert p + q + [z] + [] == p + q + [z];
    Moved(p, q, p + q, [], z);
    if Newest(c, a).Some? {
      var y := Newest(c, a).value;
      forall x | StaleBefore(c, a, x)
        ensures Precedes(Leaving(d), x, y)
      {
        if y == z {
          PrecedesIsBefore(Leaving(c), x, y);
          assert x in p + q;
          PrecedesAt(p + q, [], x, y);
        }
      }
    }
  }

  lemma HomesMoved(c: Cache, d: Cache, p: seq<nat>, q: seq<nat>, e: seq<nat>, f: seq<nat>, z: nat)
    requires Homes(c) && Leaving(c) == p + [z] + q && Leaving(d) == e + [z] + f && p + q == e + f
    requires c.hashed == d.hashed && c.bufs == d.bufs && c.owned == d.owned
    requires forall x :: x in d.pins ==> x in c.hashed && x !in d.free
    requires forall x :: x in d.limbo ==> x in d.pins
    ensures Homes(d)
  {
    hide Leaving, Precedes;
    Moved(p, q, e, f, z);
  }

  lemma WriteMoves(c: Cache)
    requires Inv(c) && CanWrite(c)
    ensures var d := Write(c);
            Homes(d) && forall a :: IsBlock(d, a) ==> OrderKept(c, d, a)
  {
    hide Precedes, ExtentsOk, First, NoDup, OrderKept, ItemsOk, Regions;
    var d, it := Write(c), c.queue[0];
    var ids := Ids(d.queue);
    if it.tag.Block? && it.tag.id in c.pins {
      var z, q := it.tag.id, ids + c.held + c.limbo;
      WriteRegroup(c.free, ids, c.held, c.limbo, z);
      assert PinOk(c, z);
      HomesMoved(c, d, c.free, q, c.free + q, [], z);
      forall a | IsBlock(d, a)
        ensures OrderKept(c, d, a)
      {
        MovedToEnd(c, d, c.free, q, z, a);
      }
    } else {
      if it.tag.Block? {
        Assoc(c.free, [it.tag.id], ids);
      }
      assert Leaving(d) == Leaving(c);
      forall a | IsBlock(d, a)
        ensures OrderKept(c, d, a)
      {
        SameOrder(c, d, a);
      }
    }
  }

  lemma WriteRegroup(f: seq<nat>, i: seq<nat>, h: seq<nat>, l: seq<nat>, z: nat)
    ensures f + ([z] + i) + h + l == f + [z] + (i + h + l)
    ensures f + i + h + (l + [z]) == f + (i + h + l) + [z] == f + (i + h + l) + [z] + []
  {
  }

  lemma WriteKeeps(c: Cache)
    requires Inv(c) && CanWrite(c)
    ensures Inv(Write(c))
  {
    hide Precedes, BlockOk, FragOk, First, NoDup, OrderKept, Carried, Leaving;
    var d, it := Write(c), c.queue[0];
    assert ItemOk(c, it);
    forall k | 0 <= k < |d.queue|
      ensures ItemOk(d, d.queue[k])
    {
      assert ItemOk(c, c.queue[k + 1]);
    }
    forall a | a in d.live
      ensures Carried(c, d, a)
    {
      CarriedPop(c, d, a);
    }
    UsersIndexed(c);
    WriteMoves(c);
    FrameKeeps(c, d);
  }

  lemma SameOrder(c: Cache, d: Cache, a: int)
    requires Leaving(c) == Leaving(d)
    ensures OrderKept(c, d, a)
  {
    hide Leaving, First, Precedes;
  }

  lemma DropHeldKeeps(c: Cache)
    requires Inv(c) && CanDropHeld(c)
    ensures Inv(DropHeld(c))
  {
    hide Precedes, BlockOk, FragOk, First, NoDup;
    var d, z := DropHeld(c), c.held[0];
    var ids := Ids(c.queue);
    var p, q := c.free + ids, d.held + c.limbo;
    assert c.held == [z] + d.held;
    assert Leaving(c) == p + [z] + q;
    assert Leaving(d) == c.free + [z] + (ids + q);
    assert p + q == c.free + (ids + q);
    HomesMoved(c, d, p, q, c.free, ids + q, z);
    forall k | 0 <= k < |d.queue|
      ensures ItemOk(d, d.queue[k])
    {
      assert ItemOk(c, c.queue[k]);
    }
    forall a | a in d.live
      ensures Carried(c, d, a)
    {
      if c.live[a].FileBlock? {
        assert a != c.bufs[z].index;
      }
      CarriedLess(c, d, a, z);
    }
    forall a | IsBlock(d, a)
      ensures OrderKept(c, d, a)
    {
      MovedOther(c, d, p, q, c.free, ids + q, z, a);
    }
    UsersIndexed(c);
    assert FewerUsers(c, d);
    FrameKeeps(c, d);
  }

  lemma CarriedLess(c: Cache, d: Cache, a: int, z: nat)
    requires a in c.live && d.live == c.live && c.queue == d.queue && c.disk == d.disk && d.missed == c.missed
    requires forall h :: h in c.held ==> h in d.held || h == z
    requires z in c.bufs && (c.live[a].FileBlock? ==> c.bufs[z].index != a)
    ensures Carried(c, d, a)
  {
    hide Coming, AllClear, OnDisk;
  }

  /** Moving a buffer of another address. */
  lemma MovedOther(c: Cache, d: Cache, p: seq<nat>, q: seq<nat>, e: seq<nat>, f: seq<nat>, z: nat, a: int)
    requires Leaving(c) == p + [z] + q && Leaving(d) == e + [z] + f && p + q == e + f && NoDup(Leaving(c))
    requires z in c.bufs && c.bufs[z].index != a
    ensures OrderKept(c, d, a)
  {
    hide Leaving;
    Moved(p, q, e, f, z);
  }

  lemma Regroup(p: seq<nat>, q: seq<nat>, i: seq<nat>, h: seq<nat>, l: seq<nat>, z: nat)
    ensures (p + [z] + q) + i + h + l == p + [z] + (q + i + h + l)
    ensures (p + q) + i + h + (l + [z]) == p + (q + i + h + l) + [z] + [] == p + (q + i + h + l) + [z]
  {
  }

  lemma PinMoves(c: Cache, a: int)
    requires Homes(c) && CanPin(c, a)
    ensures var d := Pin(c, a);
            Homes(d) && forall b :: IsBlock(d, b) ==> OrderKept(c, d, b)
  {
    hide Precedes, First, NoDup, OrderKept;
    var d, z := Pin(c, a), Newest(c, a).value;
    if z in c.free {
      FreePart(c);
      var p, q := TakeOut(c.free, z);
      var r := q + Ids(c.queue) + c.held + c.limbo;
      Regroup(p, q, Ids(c.queue), c.held, c.limbo, z);
      HomesMoved(c, d, p, r, p + r, [], z);
      forall b | IsBlock(d, b)
        ensures OrderKept(c, d, b)
      {
        MovedToEnd(c, d, p, r, z, b);
      }
    } else {
      forall b | IsBlock(d, b)
        ensures OrderKept(c, d, b)
      {
        SameOrder(c, d, b);
      }
    }
  }

  lemma PinKeeps(c: Cache, a: int)
    requires Inv(c) && CanPin(c, a)
    ensures Inv(Pin(c, a))
  {
    hide Precedes, BlockOk, FragOk, First, NoDup, Written, OnItsWay, Homes, OrderKept, Leaving;
    var d, z := Pin(c, a), Newest(c, a).value;
    forall k | 0 <= k < |d.queue|
      ensures ItemOk(d, d.queue[k])
    {
      assert ItemOk(c, c.queue[k]);
    }
    PinMoves(c, a);
    AllBuffered(c);
    PinExtents(c, d);
    forall x | x in d.pins
      ensures PinOk(d, x)
    {
      assert x in c.pins ==> PinOk(c, x);
    }
    forall h | h in d.held
      ensures HeldOk(d, h)
    {
      assert HeldOk(c, h);
    }
    forall b | b in d.missed
      ensures IsBlock(d, b) && Written(d, b)
    {
      SameWritten(c, d, b);
    }
  }

  lemma AllBuffered(c: Cache)
    requires Homes(c)
    ensures SameTable(c, c)
  {
  }

  lemma FreePart(c: Cache)
    requires NoDup(Leaving(c))
    ensures NoDup(c.free) && NoDup(c.limbo)
  {
    hide Ids;
    var l := Leaving(c);
    assert forall i :: 0 <= i < |c.free| ==> c.free[i] == l[i];
    var n := |l| - |c.limbo|;
    assert forall i :: 0 <= i < |c.limbo| ==> c.limbo[i] == l[n + i];
  }

  lemma PinExtents(c: Cache, d: Cache)
    requires ExtentsOk(c) && SameTable(c, d) && d.live == c.live && d.queue == c.queue && d.disk == c.disk &&
             d.held == c.held
    requires forall a :: IsBlock(d, a) ==> OrderKept(c, d, a)
    ensures ExtentsOk(d)
  {
    hide First, Leaving, Coming, AllClear, OnDisk, OrderKept;
    forall a | a in d.live
      ensures if d.live[a].FileBlock? then BlockOk(d, a) else FragOk(d, a)
    {
      if d.live[a].FileBlock? {
        BlockFrame(c, d, a);
      } else {
        assert FragOk(c, a);
      }
    }
  }

  /** A stale buffer of an address whose newest buffer only main uses is on the free list. */
  lemma StaleIsFree(c: Cache, z: nat, x: nat)
    requires Inv(c) && z in c.limbo && z in c.bufs && StaleBefore(c, c.bufs[z].index, x)
    ensures x in c.free
  {
    hide Precedes, First, NoDup, Coming;
    var a := c.bufs[z].index;
    assert PinOk(c, z);
    assert BlockOk(c, a);
    LimboAlone(c, z);
    InIds(c.queue, z);
    assert Written(c, a) by {
      var w := Item(a, c.live[a].data, Block(z));
      if Coming(c.queue, w) {
        ComingQueued(c.queue, w);
      }
    }
    assert x in Leaving(c);
    InIds(c.queue, x);
    if x in Ids(c.queue) {
      var k :| 0 <= k < |c.queue| && c.queue[k].tag == Block(x);
      assert ItemOk(c, c.queue[k]);
      ComingNotClear(c.queue, c.queue[k], |c.live[a].data|);
    }
    assert x in c.held ==> HeldOk(c, x);
    assert x in c.limbo ==> PinOk(c, x);
  }

  lemma ComingQueued(q: seq<Item>, it: Item)
    requires Coming(q, it)
    ensures exists k :: 0 <= k < |q| && q[k].tag == it.tag
  {
  }

  lemma LimboAlone(c: Cache, z: nat)
    requires NoDup(Leaving(c)) && z in c.limbo
    ensures z !in c.held && z !in Ids(c.queue) && z !in c.free
  {
    hide Ids;
    var l, n := Leaving(c), |Leaving(c)| - |c.limbo|;
    var j :| 0 <= j < |c.limbo| && c.limbo[j] == z;
    assert l[n + j] == z;
    var front := c.free + Ids(c.queue) + c.held;
    assert l == front + c.limbo;
    forall i | 0 <= i < |front|
      ensures front[i] != z
    {
      assert l[i] == front[i];
    }
    assert z !in front;
  }

  lemma RegroupBack(f: seq<nat>, i: seq<nat>, h: seq<nat>, p: seq<nat>, q: seq<nat>, z: nat)
    ensures f + i + h + (p + [z] + q) == (f + (i + h + p)) + [z] + q
    ensures (f + [z]) + i + h + (p + q) == f + [z] + ((i + h + p) + q)
    ensures (f + (i + h + p)) + q == f + ((i + h + p) + q)
  {
  }

  lemma UnpinMoves(c: Cache, z: nat)
    requires Inv(c) && z in c.limbo && PinOk(c, z) && z in c.pins
    ensures var d := Unpin(c, z);
            Homes(d) && forall a :: IsBlock(d, a) ==> OrderKept(c, d, a)
  {
    hide Precedes, ExtentsOk, First, NoDup, UsersOk, ItemsOk, Regions, OrderKept;
    var d := Unpin(c, z);
    FreePart(c);
    var p, q := TakeOut(c.limbo, z);
    var l := Ids(c.queue) + c.held + p;
    RegroupBack(c.free, Ids(c.queue), c.held, p, q, z);
    HomesMoved(c, d, c.free + l, q, c.free, l + q, z);
    forall a | IsBlock(d, a)
      ensures OrderKept(c, d, a)
    {
      if a != c.bufs[z].index {
        MovedOther(c, d, c.free + l, q, c.free, l + q, z, a);
      } else {
        UnpinOrder(c, d, z, l + q);
      }
    }
  }

  lemma UnpinKeeps(c: Cache, z: nat)
    requires Inv(c) && CanUnpin(c, z)
    ensures Inv(Unpin(c, z))
  {
    hide Precedes, BlockOk, FragOk, First, NoDup, Written, OnItsWay, Carried, OrderKept, Leaving, Without;
    var d := Unpin(c, z);
    forall k | 0 <= k < |d.queue|
      ensures ItemOk(d, d.queue[k])
    {
      assert ItemOk(c, c.queue[k]);
    }
    UsersIndexed(c);
    assert PinOk(c, z);
    if z in c.limbo {
      UnpinMoves(c, z);
    } else {
      assert Leaving(d) == Leaving(c) by { SameLeaving(c, d); }
      forall a | IsBlock(d, a)
        ensures OrderKept(c, d, a)
      {
        SameOrder(c, d, a);
      }
    }
    forall a | a in d.live
      ensures Carried(c, d, a)
    {
      CarriedSame(c, d, a);
    }
    FrameKeeps(c, d);
  }

  lemma SameLeaving(c: Cache, d: Cache)
    requires c.free == d.free && c.queue == d.queue && c.held == d.held && c.limbo == d.limbo
    ensures Leaving(c) == Leaving(d)
  {
  }

  lemma UnpinOrder(c: Cache, d: Cache, z: nat, rest: seq<nat>)
    requires Inv(c) && z in c.limbo && PinOk(c, z) && Leaving(d) == c.free + [z] + rest
    ensures OrderKept(c, d, c.bufs[z].index)
  {
    hide Inv, Precedes, First, Leaving;
    var a := c.bufs[z].index;
    forall x | StaleBefore(c, a, x)
      ensures Precedes(Leaving(d), x, z)
    {
      StaleIsFree(c, z, x);
      PrecedesAt(c.free, rest, x, z);
    }
  }

  // Recycling the oldest free buffer.

  lemma RecycleHomes(c: Cache)
    requires Homes(c) && CanRecycle(c)
    ensures Homes(Recycle(c)) && Leaving(Recycle(c)) == Leaving(c)[1..]
    ensures forall x :: x in Recycle(c).hashed <==> x in c.hashed && x != c.free[0]
  {
    hide Precedes, Ids;
    var d, h, l := Recycle(c), c.free[0], Leaving(c);
    assert l[0] == h && h in l;
    assert Leaving(d) == l[1..];
    NoDupTail(l);
    assert l == [h] + l[1..];
    var p, q := TakeOut(c.hashed, h);
    InsertNoDup(p, q, h);
    assert d.hashed == p + q;
    forall x
      ensures x in d.hashed <==> x in c.hashed && x != h
      ensures x in Leaving(d) <==> x in l && x != h
    {
      assert x in c.hashed <==> x in p + q || x == h;
    }
    assert forall x :: x in d.free ==> x in c.free;
  }

  /** The buffer that leaves is not the newest of a live block that is still on its way. */
  lemma RecycledIsWritten(c: Cache, a: int)
    requires Homes(c) && CanRecycle(c) && IsBlock(c, a) && BlockOk(c, a) && Newest(c, a) == Some(c.free[0])
    ensures Written(c, a)
    ensures forall x :: x in c.hashed && x in c.bufs && c.bufs[x].index == a ==> x == c.free[0]
  {
    hide First, AllClear, OnDisk, Precedes;
    var h, l := c.free[0], Leaving(c);
    var w := Item(a, c.live[a].data, Block(h));
    var others := c.free[1..] + Ids(c.queue) + c.held + c.limbo;
    assert l == [h] + others by { assert c.free == [h] + c.free[1..]; }
    NoDupTail(l);
    assert l[1..] == others;
    assert h !in c.held && h !in Ids(c.queue);
    InIds(c.queue, h);
    if Coming(c.queue, w) {
      ComingQueued(c.queue, w);
    }
    forall x | x in c.hashed && x in c.bufs && c.bufs[x].index == a && x != h
      ensures false
    {
      assert Precedes(l, x, h);
      FirstHasNoneBefore(l, x);
    }
  }

  lemma RecycleBlock(c: Cache, a: int)
    requires Homes(c) && CanRecycle(c) && IsBlock(c, a) && BlockOk(c, a)
    ensures BlockOk(Recycle(c), a)
    ensures Newest(c, a) != Some(c.free[0]) ==> Newest(Recycle(c), a) == Newest(c, a)
  {
    hide First, Precedes, Coming, AllClear, OnDisk, NoDup, Leaving, Without;
    var d, h := Recycle(c), c.free[0];
    RecycleHomes(c);
    if Newest(c, a).None? {
      FirstNone(d.hashed, d.bufs, a);
    } else if Newest(c, a).value == h {
      RecycledIsWritten(c, a);
      FirstNone(d.hashed, d.bufs, a);
    } else {
      var y := Newest(c, a).value;
      FirstWithout(c.hashed, c.bufs, a, h);
      forall x | x in d.hashed && x in d.bufs && d.bufs[x].index == a && x != y
        ensures Precedes(Leaving(d), x, y)
      {
        LeavingStarts(c);
        PrecedesTail(Leaving(c), x, y);
      }
    }
  }

  lemma LeavingStarts(c: Cache)
    requires c.free != []
    ensures Leaving(c) != [] && Leaving(c)[0] == c.free[0]
  {
  }

  lemma RecycleKeeps(c: Cache)
    requires Inv(c) && CanRecycle(c)
    ensures Inv(Recycle(c))
  {
    hide First, BlockOk, FragOk, Homes, Written;
    var d, h := Recycle(c), c.free[0];
    RecycleHomes(c);
    forall k | 0 <= k < |d.queue|
      ensures ItemOk(d, d.queue[k])
    {
      assert ItemOk(c, c.queue[k]);
    }
    forall a | a in d.live
      ensures if d.live[a].FileBlock? then BlockOk(d, a) else FragOk(d, a)
    {
      if d.live[a].FileBlock? {
        RecycleBlock(c, a);
      } else {
        FragSame(c, d, a);
      }
    }
    forall x | x in d.pins || x in d.held
      ensures x in d.pins ==> PinOk(d, x)
      ensures x in d.held ==> HeldOk(d, x)
    {
      NotFirstFree(c, x);
      assert x in c.pins ==> PinOk(c, x);
      assert x in c.held ==> HeldOk(c, x);
      if IsBlock(c, c.bufs[x].index) {
        RecycleBlock(c, c.bufs[x].index);
      }
    }
    forall a | a in d.missed
      ensures IsBlock(d, a) && Written(d, a)
    {
      SameWritten(c, d, a);
    }
  }

  lemma FragSame(c: Cache, d: Cache, a: int)
    requires a in c.live && c.live[a].FragBlock? && FragOk(c, a)
    requires d.queue == c.queue && d.disk == c.disk && a in d.live && d.live[a] == c.live[a]
    ensures FragOk(d, a)
  {
  }

  lemma NotFirstFree(c: Cache, x: nat)
    requires Homes(c) && c.free != [] && (x in c.pins || x in c.held)
    ensures x in c.hashed && x != c.free[0]
  {
    hide Ids;
    var l := Leaving(c);
    if x in c.held {
      var j :| 0 <= j < |c.held| && c.held[j] == x;
      var n := |c.free| + |Ids(c.queue)|;
      assert l[n + j] == x && l[0] == c.free[0];
      assert x in l;
    }
  }

  // Giving a block its address.

  lemma SomeMember(s: seq<nat>)
    ensures s == [] || exists x :: x in s
  {
    if s != [] {
      assert s[0] in s;
    }
  }

  lemma PlaceHomes(c: Cache, id: nat, addr: int, hold: bool)
    requires Homes(c) && CanPlace(c, id, addr, hold)
    ensures Homes(Place(c, id, addr, hold)) && Leaving(Place(c, id, addr, hold)) == Leaving(c) + [id]
  {
    hide Precedes;
    var d := Place(c, id, addr, hold);
    SomeMember(c.limbo);
    if !hold {
      IdsSnoc(c.queue, Item(addr, c.bufs[id].data, Block(id)));
    }
    assert Leaving(d) == Leaving(c) + [id];
    NoDupSnoc(Leaving(c), id);
    InsertNoDup([], c.hashed, id);
    assert [] + [id] + c.hashed == d.hashed && [] + c.hashed == c.hashed;
  }

  lemma PlaceOthers(c: Cache, id: nat, addr: int, hold: bool, a: int)
    requires Homes(c) && CanPlace(c, id, addr, hold) && a != addr
    ensures Newest(Place(c, id, addr, hold), a) == Newest(c, a)
  {
    var d := Place(c, id, addr, hold);
    assert d.hashed[1..] == c.hashed;
    FirstSame(c.hashed, c.bufs, d.bufs, a);
  }

  lemma PlaceBlock(c: Cache, id: nat, addr: int, hold: bool, a: int)
    requires Homes(c) && CanPlace(c, id, addr, hold) && a != addr && IsBlock(c, a) && BlockOk(c, a)
    ensures BlockOk(Place(c, id, addr, hold), a)
  {
    hide First, Precedes, NoDup, Leaving, Coming, AllClear, OnDisk;
    var d := Place(c, id, addr, hold);
    PlaceHomes(c, id, addr, hold);
    PlaceOthers(c, id, addr, hold, a);
    PlaceCarried(c, id, addr, hold, a);
    if Newest(c, a).Some? {
      var y := Newest(c, a).value;
      forall x | x in d.hashed && x in d.bufs && d.bufs[x].index == a && x != y
        ensures Precedes(Leaving(d), x, y)
      {
        PrecedesAppend(Leaving(c), [id], x, y);
      }
    }
  }

  lemma PlaceCarried(c: Cache, id: nat, addr: int, hold: bool, a: int)
    requires CanPlace(c, id, addr, hold) && a != addr && a in c.live
    ensures Carried(c, Place(c, id, addr, hold), a)
    ensures Written(c, a) ==> Written(Place(c, id, addr, hold), a)
  {
    hide Coming, OnDisk, First;
    var d := Place(c, id, addr, hold);
    if hold {
      CarriedSame(c, d, a);
    } else {
      var it := Item(addr, c.bufs[id].data, Block(id));
      assert Clear(it, a, |c.live[a].data|);
      CarriedSnoc(c, d, a, it);
      if Written(c, a) {
        ClearSnoc(c.queue, it, a, |c.live[a].data|);
      }
    }
  }

  lemma PlaceNew(c: Cache, id: nat, addr: int, hold: bool)
    requires Homes(c) && CanPlace(c, id, addr, hold)
    ensures var d := Place(c, id, addr, hold);
            BlockOk(d, addr) && Newest(d, addr) == Some(id)
  {
    hide Precedes, NoDup, Leaving, Coming, AllClear, OnDisk;
    var d := Place(c, id, addr, hold);
    PlaceHomes(c, id, addr, hold);
    assert d.hashed[0] == id;
    if !hold {
      ComingNew(c.queue, Item(addr, c.bufs[id].data, Block(id)));
    }
    forall x | x in d.hashed && x in d.bufs && d.bufs[x].index == addr && x != id
      ensures Precedes(Leaving(d), x, id)
    {
      assert x in Leaving(c);
      PrecedesAt(Leaving(c), [], x, id);
      assert Leaving(c) + [id] + [] == Leaving(d);
    }
  }

  lemma PlaceItems(c: Cache, id: nat, addr: int, hold: bool)
    requires Homes(c) && ItemsOk(c) && CanPlace(c, id, addr, hold)
    ensures ItemsOk(Place(c, id, addr, hold))
  {
    hide Ids, Precedes, NoDup, Leaving;
    var d := Place(c, id, addr, hold);
    forall k | 0 <= k < |d.queue|
      ensures ItemOk(d, d.queue[k])
    {
      if k < |c.queue| {
        assert ItemOk(c, c.queue[k]);
        if c.queue[k].tag.Block? {
          QueuedHashed(c, k);
        }
      }
    }
  }

  lemma PlaceKeeps(c: Cache, id: nat, addr: int, hold: bool)
    requires Inv(c) && CanPlace(c, id, addr, hold)
    ensures Inv(Place(c, id, addr, hold))
  {
    hide First, BlockOk, Homes, ItemsOk, OnItsWay, Coming, AllClear, OnDisk;
    var d := Place(c, id, addr, hold);
    PlaceHomes(c, id, addr, hold);
    PlaceItems(c, id, addr, hold);
    PlaceNew(c, id, addr, hold);
    assert addr !in c.live;
    forall a | a in d.live
      ensures if d.live[a].FileBlock? then BlockOk(d, a) else FragOk(d, a)
    {
      if a != addr {
        if c.live[a].FileBlock? {
          PlaceBlock(c, id, addr, hold, a);
        } else {
          PlaceCarried(c, id, addr, hold, a);
          assert FragOk(c, a);
        }
      }
    }
    forall h | h in d.held
      ensures HeldOk(d, h)
    {
      if h in c.held {
        HeldHashed(c, h);
        HashedNotOwned(c, h, id);
        assert HeldOk(c, h);
        PlaceOthers(c, id, addr, hold, c.bufs[h].index);
      }
    }
    forall a | a in d.missed
      ensures IsBlock(d, a) && Written(d, a)
    {
      PlaceCarried(c, id, addr, hold, a);
    }
  }

  lemma HashedNotOwned(c: Cache, h: nat, id: nat)
    requires Homes(c) && h in c.hashed && id in c.owned
    ensures h != id
  {
  }

  // ---------- what the invariant is for ----------

  /** What duplicate and get_checksum_disk use: the cached buffer, or the bytes on disk. */
  function ReadBlock(c: Cache, a: int, n: nat): Option<seq<byte>>
  {
    match Newest(c, a)
    case Some(y) => if y in c.bufs && n <= |c.bufs[y].data| then Some(c.bufs[y].data[..n]) else None
    case None => ReadDisk(c.disk, a, n)
  }

  function ReadDisk(disk: Disk, a: int, n: nat): (r: Option<seq<byte>>)
    ensures r.Some? ==> |r.value| == n
    decreases n
  {
    if n == 0 then Some([]) else
      match (ReadDisk(disk, a, n - 1), disk(a + n - 1))
      case (Some(front), Some(b)) => Some(front + [b])
      case (_, _) => None
  }

  lemma {:induction false} ReadDiskBack(disk: Disk, a: int, data: seq<byte>, n: nat)
    requires OnDisk(disk, a, data) && n <= |data|
    ensures ReadDisk(disk, a, n) == Some(data[..n])
    decreases n
  {
    if n > 0 {
      ReadDiskBack(disk, a, data, n - 1);
      assert disk(a + n - 1) == Some(data[n - 1]);
      assert data[..n] == data[..n - 1] + [data[n - 1]];
    }
  }

  /** Reading a live block gives its bytes, wherever they are at the moment. */
  lemma BlockReads(c: Cache, a: int)
    requires Inv(c) && IsBlock(c, a)
    ensures ReadBlock(c, a, |c.live[a].data|) == Some(c.live[a].data)
  {
    hide First, Precedes, ReadDisk;
    assert BlockOk(c, a);
    var data := c.live[a].data;
    assert data[..|data|] == data;
    if Newest(c, a).None? {
      ReadDiskBack(c.disk, a, data, |data|);
    }
  }

  /** A buffer main has looked up keeps the block's bytes until it is put back, and a
      block it did not find can be read from the disk at any later step. */
  lemma UsersRead(c: Cache)
    requires Inv(c)
    ensures forall p :: p in c.pins ==>
              p in c.bufs && IsBlock(c, c.bufs[p].index) && c.bufs[p].data == c.live[c.bufs[p].index].data
    ensures forall a :: a in c.missed ==>
              IsBlock(c, a) && ReadDisk(c.disk, a, |c.live[a].data|) == Some(c.live[a].data)
  {
    hide First, Precedes, ReadDisk;
    forall p | p in c.pins
      ensures p in c.bufs && IsBlock(c, c.bufs[p].index) && c.bufs[p].data == c.live[c.bufs[p].index].data
    {
      assert PinOk(c, p);
      assert BlockOk(c, c.bufs[p].index);
    }
    forall a | a in c.missed
      ensures IsBlock(c, a) && ReadDisk(c.disk, a, |c.live[a].data|) == Some(c.live[a].data)
    {
      var data := c.live[a].data;
      ReadDiskBack(c.disk, a, data, |data|);
      assert data[..|data|] == data;
    }
  }
}
