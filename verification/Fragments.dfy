/** The life of a fragment block: filled by main, queued, compressed by a fragment deflator,
    placed on the output at once or, while main is writing a file, later; and fetched back
    by any number of threads that compare tail ends. */
module Fragments {
  import opened Bytes
  import opened Compressor
  import opened LeavingOrder
  import opened WriteCache

  /** Filled carries the deflator's size word until the fragment table has it. */
  datatype Stage = Open | Queued | Taken | Made | Filled(word: nat) | Pending | Placed

  /** Who uses a buffer: the pipeline itself or a thread in get_fragment. The number of
      holders is the program's usage count. */
  datatype Holder = Pipe | Thread(t: nat)

  datatype FragBuf = FragBuf(data: seq<byte>, holders: set<Holder>, locked: bool)
  datatype PackBuf = PackBuf(data: seq<byte>, holders: set<Holder>)
  datatype Row = Row(start: int, word: nat)

  datatype Home = MainCache | ReserveCache

  /** Where a thread is inside get_fragment. */
  datatype Get =
    | Waiting(n: nat, home: Home)
    | Begun(n: nat, home: Home)
    | Looked(n: nat, home: Home, cached: bool)
    | HasRow(n: nat, home: Home, cached: bool, row: Row)
    | Got(n: nat, home: Home)

  /** A tail end main has stored in a fragment. */
  datatype Tail = Tail(n: nat, offset: nat, data: seq<byte>)

  /** - main, reserve, packed: the fragment, reserve and fragment writer caches by index;
      - content: what each fragment holds, and tails what was recorded, which no thread
        stores;
      - failed: some thread could not get its fragment back. */
  datatype Frags = Frags(count: nat, stage: map<nat, Stage>, outstanding: int, main: map<nat, FragBuf>,
                         reserve: map<nat, FragBuf>, packed: map<nat, PackBuf>, table: map<nat, Row>,
                         gets: map<nat, Get>, content: map<nat, seq<byte>>, tails: seq<Tail>, failed: bool)

  /** The compressor, how the fragments of an image that is appended to were compressed, and
      the block size. */
  datatype Params = Params(packer: Packer, before: seq<Packer>, block: nat)

  function PackerOf(p: Params, n: nat): Packer { if n < |p.before| then p.before[n] else p.packer }

  /** One reader reads them all. */
  ghost predicate ParamsOk(p: Params)
  {
    p.block <= 0x10_0000 && forall n: nat :: Readable(p, n)
  }

  ghost predicate Readable(p: Params, n: nat)
  {
    Lossless(PackerOf(p, n).codec) && PackerOf(p, n).codec.uncompress == p.packer.codec.uncompress
  }

  predicate Late(s: Stage) { s.Pending? || s.Placed? }

  predicate IsBusy(s: Stage) { !s.Open? && !s.Placed? }

  function Busy(f: Frags): set<nat> { set n | n in f.stage && IsBusy(f.stage[n]) }

  predicate IsFiller(g: Get) { g.Begun? || g.Looked? || g.HasRow? }

  // ---------- the invariant ----------

  ghost predicate InMain(f: Frags, n: nat)
  {
    n in f.main && Pipe in f.main[n].holders && !f.main[n].locked && n in f.content && f.main[n].data == f.content[n]
  }

  ghost predicate PackedRight(p: Params, f: Frags, n: nat)
  {
    n in f.packed && n in f.content && f.packed[n].data == Mangle(PackerOf(p, n), f.content[n]).data
  }

  ghost predicate InPipe(f: Frags, n: nat) { n in f.packed && Pipe in f.packed[n].holders }

  function Word(p: Params, n: nat, data: seq<byte>): nat { DataWord(Mangle(PackerOf(p, n), data)) }

  ghost predicate StageOk(p: Params, f: Frags, tags: seq<nat>, live: map<int, Extent>, n: nat)
    requires n in f.stage && n in f.content
  {
    var data := f.content[n];
    match f.stage[n]
    case Open => InMain(f, n) && n !in f.packed && n !in tags
    case Queued => InMain(f, n) && n !in f.packed && n !in tags
    case Taken => InMain(f, n) && n !in f.packed && n !in tags
    case Made => InMain(f, n) && InPipe(f, n) && n !in tags
    case Filled(w) => InMain(f, n) && InPipe(f, n) && PackedRight(p, f, n) && w == Word(p, n, data) && n !in tags
    case Pending => InPipe(f, n) && PackedRight(p, f, n) && n in f.table && f.table[n].word == Word(p, n, data) &&
      n !in tags
    case Placed =>
      n in f.table && f.table[n].word == Word(p, n, data) &&
      f.table[n].start in live && live[f.table[n].start] == FragBlock(Mangle(PackerOf(p, n), data).data, n) &&
      (n in f.packed ==> PackedRight(p, f, n)) && (n in tags ==> InPipe(f, n))
  }

  ghost predicate FragmentOk(p: Params, f: Frags, tags: seq<nat>, live: map<int, Extent>, n: nat)
  {
    n in f.stage && n in f.content && |f.content[n]| <= p.block && (!f.stage[n].Open? ==> f.content[n] != []) &&
    (f.stage[n].Placed? || n >= |p.before|) &&
    StageOk(p, f, tags, live, n)
  }

  ghost predicate BufOk(f: Frags, n: nat, b: FragBuf)
  {
    n in f.content && n in f.stage && (!b.locked ==> b.data == f.content[n]) &&
    (b.locked ==> Pipe !in b.holders && Late(f.stage[n]))
  }

  ghost predicate BufsOk(f: Frags)
  {
    (forall n :: n in f.main ==> BufOk(f, n, f.main[n]) && n !in f.reserve) &&
    forall n :: n in f.reserve ==> BufOk(f, n, f.reserve[n]) && Pipe !in f.reserve[n].holders
  }

  function CacheOf(f: Frags, home: Home): map<nat, FragBuf> { if home.MainCache? then f.main else f.reserve }

  ghost predicate GetOk(f: Frags, tags: seq<nat>, t: nat, g: Get)
  {
    var cache := CacheOf(f, g.home);
    g.n in cache && Thread(t) in cache[g.n].holders && g.n in f.stage &&
    (g.Got? ==> !cache[g.n].locked) && (IsFiller(g) ==> cache[g.n].locked && Late(f.stage[g.n])) &&
    (g.Looked? || g.HasRow? ==>
       if g.cached then g.n in f.packed && Thread(t) in f.packed[g.n].holders
       else f.stage[g.n].Placed? && g.n !in tags) &&
    (g.HasRow? ==> g.n in f.table && g.row.word == f.table[g.n].word && (!g.cached ==> g.row == f.table[g.n]))
  }

  ghost predicate GetsOk(f: Frags, tags: seq<nat>)
  {
    (forall t :: t in f.gets ==> GetOk(f, tags, t, f.gets[t])) &&
    forall t, u ::
      t in f.gets && u in f.gets && IsFiller(f.gets[t]) && IsFiller(f.gets[u]) && f.gets[t].n == f.gets[u].n ==> t == u
  }

  ghost predicate TailOk(f: Frags, x: Tail)
  {
    x.n in f.content && x.offset + |x.data| <= |f.content[x.n]| &&
      f.content[x.n][x.offset..x.offset + |x.data|] == x.data
  }

  ghost predicate TailsOk(f: Frags)
  {
    forall i :: 0 <= i < |f.tails| ==> TailOk(f, f.tails[i])
  }

  ghost predicate Keys(f: Frags, tags: seq<nat>)
  {
    NoDup(tags) && (forall n: nat :: n in f.stage <==> n < f.count) && (forall n :: n in f.content ==> n < f.count) &&
    (forall n :: n in tags ==> n < f.count) && (forall n :: n in f.packed ==> n < f.count)
  }

  ghost predicate StagesOk(p: Params, f: Frags, tags: seq<nat>, live: map<int, Extent>)
  {
    forall n :: n in f.stage ==> FragmentOk(p, f, tags, live, n)
  }

  /** fragments_outstanding counts the fragments queued, being compressed or pending. */
  ghost predicate Tally(f: Frags) { f.outstanding == |Busy(f)| }

  /** `tags` are the fragments in the writer's queue and `live` the extents in use. */
  ghost predicate FragInv(p: Params, f: Frags, tags: seq<nat>, live: map<int, Extent>)
  {
    Keys(f, tags) && |p.before| <= f.count && StagesOk(p, f, tags, live) && BufsOk(f) && GetsOk(f, tags) &&
      TailsOk(f) && Tally(f) && !f.failed
  }

  // ---------- main and the fragment deflators ----------

  /** allocate_fragment */
  function AllocFrag(f: Frags): Frags
  {
    var n := f.count;
    f.(count := n + 1, stage := f.stage[n := Open], content := f.content[n := []],
       main := f.main[n := FragBuf([], {Pipe}, false)])
  }

  predicate CanFillFrag(p: Params, f: Frags, n: nat, piece: seq<byte>)
  {
    n in f.stage && f.stage[n].Open? && n in f.main && n in f.content && |f.main[n].data| + |piece| <= p.block
  }

  /** get_and_fill_fragment: main appends a tail end and records where. */
  function FillFrag(f: Frags, n: nat, piece: seq<byte>): Frags
    requires n in f.main && n in f.content
  {
    var b := f.main[n];
    f.(main := f.main[n := b.(data := b.data + piece)], content := f.content[n := f.content[n] + piece],
       tails := f.tails + [Tail(n, |b.data|, piece)])
  }

  predicate CanClose(f: Frags, n: nat)
  {
    n in f.stage && f.stage[n].Open? && n in f.content && f.content[n] != []
  }

  /** write_fragment */
  function CloseFrag(f: Frags, n: nat): Frags
  {
    f.(stage := f.stage[n := Queued], outstanding := f.outstanding + 1)
  }

  /** A deflator takes the fragment from its queue. */
  function TakeFrag(f: Frags, n: nat): Frags { f.(stage := f.stage[n := Taken]) }

  /** It gets a write buffer hashed under the fragment's number, with old bytes in it. */
  function MakePacked(f: Frags, n: nat, junk: seq<byte>): Frags
  {
    f.(stage := f.stage[n := Made], packed := f.packed[n := PackBuf(junk, {Pipe})])
  }

  /** It compresses the fragment into the write buffer. */
  function PackFrag(p: Params, f: Frags, n: nat): Frags
    requires n in f.main && n in f.packed
  {
    var st := Mangle(p.packer, f.main[n].data);
    f.(stage := f.stage[n := Filled(DataWord(st))], packed := f.packed[n := f.packed[n].(data := st.data)])
  }

  /** With fragments not locked it takes the next address. */
  function PlaceFrag(f: Frags, n: nat, bytes: int): Frags
    requires n in f.stage && f.stage[n].Filled?
  {
    f.(stage := f.stage[n := Placed], table := f.table[n := Row(bytes, f.stage[n].word)],
       outstanding := f.outstanding - 1)
  }

  /** With fragments locked it only records the size. */
  function PendFrag(f: Frags, n: nat): Frags
    requires n in f.stage && f.stage[n].Filled?
  {
    var start := if n in f.table then f.table[n].start else 0;
    f.(stage := f.stage[n := Pending], table := f.table[n := Row(start, f.stage[n].word)])
  }

  /** unlock_fragments places a pending fragment. */
  function UnlockFrag(f: Frags, n: nat, bytes: int): Frags
    requires n in f.table
  {
    f.(stage := f.stage[n := Placed], table := f.table[n := f.table[n].(start := bytes)],
       outstanding := f.outstanding - 1)
  }

  predicate CanRelease(f: Frags, n: nat)
  {
    n in f.stage && Late(f.stage[n]) && n in f.main && Pipe in f.main[n].holders
  }

  /** The deflator puts the fragment buffer. */
  function ReleaseFrag(f: Frags, n: nat): Frags
    requires n in f.main
  {
    f.(main := f.main[n := f.main[n].(holders := f.main[n].holders - {Pipe})])
  }

  /** The writer puts the write buffer. */
  function PutPacked(f: Frags, n: nat): Frags
  {
    if n in f.packed then f.(packed := f.packed[n := f.packed[n].(holders := f.packed[n].holders - {Pipe})]) else f
  }

  // Buffers nobody uses may be recycled at any time.

  predicate CanEvict(f: Frags, home: Home, n: nat) { n in CacheOf(f, home) && CacheOf(f, home)[n].holders == {} }

  function Evict(f: Frags, home: Home, n: nat): Frags
  {
    if home.MainCache? then f.(main := f.main - {n}) else f.(reserve := f.reserve - {n})
  }

  predicate CanEvictPacked(f: Frags, n: nat) { n in f.packed && f.packed[n].holders == {} }

  function EvictPacked(f: Frags, n: nat): Frags { f.(packed := f.packed - {n}) }

  // ---------- get_fragment ----------

  function SetBuf(f: Frags, home: Home, n: nat, b: FragBuf): Frags
  {
    if home.MainCache? then f.(main := f.main[n := b]) else f.(reserve := f.reserve[n := b])
  }

  function Hold(b: FragBuf, t: nat): FragBuf { b.(holders := b.holders + {Thread(t)}) }

  predicate CanGet(f: Frags, t: nat, n: nat) { t !in f.gets && n < f.count }

  /** Finds the fragment in one of the caches, or makes a locked buffer in one of them. */
  function StartGet(f: Frags, t: nat, n: nat, home: Home, junk: seq<byte>): Frags
  {
    if n in f.main then SetBuf(f, MainCache, n, Hold(f.main[n], t)).(gets := f.gets[t := Waiting(n, MainCache)])
    else if n in f.reserve then
      SetBuf(f, ReserveCache, n, Hold(f.reserve[n], t)).(gets := f.gets[t := Waiting(n, ReserveCache)])
    else SetBuf(f, home, n, FragBuf(junk, {Thread(t)}, true)).(gets := f.gets[t := Begun(n, home)])
  }

  predicate CanFinishWait(f: Frags, t: nat)
  {
    t in f.gets && f.gets[t].Waiting? && f.gets[t].n in CacheOf(f, f.gets[t].home) &&
      !CacheOf(f, f.gets[t].home)[f.gets[t].n].locked
  }

  function FinishWait(f: Frags, t: nat): Frags
    requires t in f.gets
  {
    f.(gets := f.gets[t := Got(f.gets[t].n, f.gets[t].home)])
  }

  /** Looks for a compressed copy in the fragment writer cache. */
  function LookPacked(f: Frags, t: nat): Frags
    requires t in f.gets
  {
    var g := f.gets[t];
    if g.n in f.packed then
      f.(gets := f.gets[t := Looked(g.n, g.home, true)],
         packed := f.packed[g.n := f.packed[g.n].(holders := f.packed[g.n].holders + {Thread(t)})])
    else f.(gets := f.gets[t := Looked(g.n, g.home, false)])
  }

  /** Reads the fragment table. */
  function ReadRow(f: Frags, t: nat): Frags
    requires t in f.gets && f.gets[t].Looked? && f.gets[t].n in f.table
  {
    var g := f.gets[t];
    f.(gets := f.gets[t := HasRow(g.n, g.home, g.cached, f.table[g.n])])
  }

  /** The fragment's bytes, from the compressed copy or from the disk. */
  function Recover(p: Params, f: Frags, disk: Disk, g: Get): Option<seq<byte>>
    requires g.HasRow?
  {
    var size := DataWordSize(g.row.word);
    var src := if !g.cached then ReadDisk(disk, g.row.start, size)
               else if g.n in f.packed && size <= |f.packed[g.n].data| then Some(f.packed[g.n].data[..size]) else None;
    if src.None? then None else Unmangle(p.packer.codec, Stored(DataWordRaw(g.row.word), src.value), p.block)
  }

  /** Fills the buffer, unlocks it and puts the compressed copy. */
  function FillGet(p: Params, f: Frags, disk: Disk, t: nat): Frags
    requires t in f.gets && f.gets[t].HasRow? && f.gets[t].n in CacheOf(f, f.gets[t].home)
  {
    var g := f.gets[t];
    match Recover(p, f, disk, g)
    case None => f.(failed := true)
    case Some(data) =>
      var b := CacheOf(f, g.home)[g.n];
      var d := SetBuf(f, g.home, g.n, b.(data := data, locked := false)).(gets := f.gets[t := Got(g.n, g.home)]);
      if g.cached && g.n in f.packed then
        d.(packed := f.packed[g.n := f.packed[g.n].(holders := f.packed[g.n].holders - {Thread(t)})])
      else d
  }

  /** The caller puts the fragment buffer. */
  function EndGet(f: Frags, t: nat): Frags
    requires t in f.gets && f.gets[t].n in CacheOf(f, f.gets[t].home)
  {
    var g := f.gets[t];
    var b := CacheOf(f, g.home)[g.n];
    SetBuf(f, g.home, g.n, b.(holders := b.holders - {Thread(t)})).(gets := f.gets - {t})
  }

  // ---------- every step keeps the invariant ----------

  lemma BusySame(f: Frags, g: Frags)
    requires forall n :: n in f.stage && IsBusy(f.stage[n]) <==> n in g.stage && IsBusy(g.stage[n])
    ensures Busy(f) == Busy(g)
  {
  }

  lemma BusyMore(f: Frags, g: Frags, n: nat)
    requires n !in Busy(f) && n in Busy(g)
    requires forall m :: m != n ==> (m in f.stage && IsBusy(f.stage[m]) <==> m in g.stage && IsBusy(g.stage[m]))
    ensures |Busy(g)| == |Busy(f)| + 1
  {
    assert Busy(g) == Busy(f) + {n} by {
      forall m
        ensures m in Busy(g) <==> m in Busy(f) + {n}
      {
      }
    }
  }

  ghost predicate SameAt<T>(a: map<nat, T>, b: map<nat, T>, n: nat)
  {
    (n in a <==> n in b) && (n in a ==> a[n] == b[n])
  }

  ghost predicate Grown(live: map<int, Extent>, live': map<int, Extent>)
  {
    forall a :: a in live ==> a in live' && live'[a] == live[a]
  }

  /** Nothing about this fragment has changed. */
  ghost predicate SameFor(f: Frags, g: Frags, tags: seq<nat>, tags': seq<nat>, n: nat)
  {
    SameAt(f.stage, g.stage, n) && SameAt(f.main, g.main, n) && SameAt(f.packed, g.packed, n) &&
    SameAt(f.table, g.table, n) && SameAt(f.content, g.content, n) && (n in tags <==> n in tags')
  }

  lemma StagesFrame(p: Params, f: Frags, g: Frags, tags: seq<nat>, tags': seq<nat>, live: map<int, Extent>,
                    live': map<int, Extent>, n: nat)
    requires StagesOk(p, f, tags, live) && Grown(live, live') && (n in g.stage ==> FragmentOk(p, g, tags', live', n))
    requires forall m :: m in g.stage && m != n ==> SameFor(f, g, tags, tags', m)
    ensures StagesOk(p, g, tags', live')
  {
    hide Mangle, Word, Grown, FragmentOk;
    forall m | m in g.stage
      ensures FragmentOk(p, g, tags', live', m)
    {
      if m != n {
        assert SameFor(f, g, tags, tags', m);
        FragmentSame(p, f, g, tags, tags', live, live', m);
      }
    }
  }

  lemma FragmentSame(p: Params, f: Frags, g: Frags, tags: seq<nat>, tags': seq<nat>, live: map<int, Extent>,
                     live': map<int, Extent>, n: nat)
    requires FragmentOk(p, f, tags, live, n) && SameFor(f, g, tags, tags', n) && Grown(live, live')
    ensures FragmentOk(p, g, tags', live', n)
  {
    hide Mangle, Word;
  }

  lemma BufsFrame(f: Frags, g: Frags, n: nat)
    requires BufsOk(f)
    requires forall m :: m != n ==> SameAt(f.main, g.main, m) && SameAt(f.reserve, g.reserve, m)
    requires forall m :: m != n && m in f.stage ==> SameAt(f.stage, g.stage, m)
    requires forall m :: m != n && m in f.content ==> SameAt(f.content, g.content, m)
    requires n in g.main ==> BufOk(g, n, g.main[n]) && n !in g.reserve
    requires n in g.reserve ==> BufOk(g, n, g.reserve[n]) && Pipe !in g.reserve[n].holders
    ensures BufsOk(g)
  {
    forall m | m in g.main
      ensures BufOk(g, m, g.main[m]) && m !in g.reserve
    {
      if m != n {
        assert SameAt(f.main, g.main, m) && SameAt(f.reserve, g.reserve, m);
        assert BufOk(f, m, f.main[m]);
        assert SameAt(f.stage, g.stage, m) && SameAt(f.content, g.content, m);
      }
    }
    forall m | m in g.reserve
      ensures BufOk(g, m, g.reserve[m]) && Pipe !in g.reserve[m].holders
    {
      if m != n {
        assert SameAt(f.main, g.main, m) && SameAt(f.reserve, g.reserve, m);
        assert BufOk(f, m, f.reserve[m]);
        assert SameAt(f.stage, g.stage, m) && SameAt(f.content, g.content, m);
      }
    }
  }

  lemma GetSame(f: Frags, g: Frags, tags: seq<nat>, tags': seq<nat>, t: nat, x: Get)
    requires GetOk(f, tags, t, x) && SameAt(f.main, g.main, x.n) && SameAt(f.reserve, g.reserve, x.n) && x.n in g.stage
    requires IsFiller(x) ==>
               SameAt(f.stage, g.stage, x.n) && SameAt(f.packed, g.packed, x.n) && SameAt(f.table, g.table, x.n)
    requires IsFiller(x) ==> (x.n in tags <==> x.n in tags')
    ensures GetOk(g, tags', t, x)
  {
  }

  lemma TailsSame(f: Frags, g: Frags)
    requires TailsOk(f) && g.tails == f.tails && forall n :: n in f.content ==> SameAt(f.content, g.content, n)
    ensures TailsOk(g)
  {
    forall i | 0 <= i < |g.tails|
      ensures TailOk(g, g.tails[i])
    {
      assert TailOk(f, f.tails[i]);
    }
  }

  lemma GetHas(f: Frags, tags: seq<nat>, t: nat)
    requires GetsOk(f, tags) && t in f.gets
    ensures GetOk(f, tags, t, f.gets[t]) && f.gets[t].n in f.stage
    ensures IsFiller(f.gets[t]) ==> Late(f.stage[f.gets[t].n])
  {
  }

  lemma FragmentHas(p: Params, f: Frags, tags: seq<nat>, live: map<int, Extent>, n: nat)
    requires StagesOk(p, f, tags, live) && n in f.stage
    ensures FragmentOk(p, f, tags, live, n)
  {
  }

  lemma AllocFragKeeps(p: Params, f: Frags, tags: seq<nat>, live: map<int, Extent>)
    requires FragInv(p, f, tags, live)
    ensures FragInv(p, AllocFrag(f), tags, live)
  {
    hide TailsOk, GetOk, BufsOk, NoDup, StagesOk, Busy;
    var g, n := AllocFrag(f), f.count;
    BusySame(f, g);
    TailsSame(f, g);
    StagesFrame(p, f, g, tags, tags, live, live, n);
    assert n !in f.main && n !in f.reserve by { BufsKnown(f, n); }
    BufsFrame(f, g, n);
    forall t | t in g.gets
      ensures GetOk(g, tags, t, g.gets[t])
    {
      GetHas(f, tags, t);
      GetSame(f, g, tags, tags, t, f.gets[t]);
    }
  }

  lemma BufsKnown(f: Frags, n: nat)
    requires BufsOk(f) && n !in f.stage
    ensures n !in f.main && n !in f.reserve
  {
  }

  lemma FillFragKeeps(p: Params, f: Frags, tags: seq<nat>, live: map<int, Extent>, n: nat, piece: seq<byte>)
    requires FragInv(p, f, tags, live) && CanFillFrag(p, f, n, piece)
    ensures FragInv(p, FillFrag(f, n, piece), tags, live)
  {
    hide TailsOk, BufsOk, NoDup, StagesOk, GetOk, Busy, Mangle, Word;
    var g := FillFrag(f, n, piece);
    BusySame(f, g);
    FragmentHas(p, f, tags, live, n);
    StagesFrame(p, f, g, tags, tags, live, live, n);
    assert n !in f.reserve by { OneHome(f, n); }
    BufsFrame(f, g, n);
    forall t | t in g.gets
      ensures GetOk(g, tags, t, g.gets[t])
    {
      GetHas(f, tags, t);
      if f.gets[t].n == n {
        GetData(f, g, tags, t, f.gets[t]);
      } else {
        GetSame(f, g, tags, tags, t, f.gets[t]);
      }
    }
    FillTails(f, n, piece);
  }

  lemma OneHome(f: Frags, n: nat)
    requires BufsOk(f) && n in f.main
    ensures n !in f.reserve
  {
  }

  /** Only the bytes in the buffer have changed. */
  lemma GetData(f: Frags, g: Frags, tags: seq<nat>, t: nat, x: Get)
    requires GetOk(f, tags, t, x) && g.stage == f.stage && g.packed == f.packed && g.table == f.table &&
             g.reserve == f.reserve
    requires x.n in f.main && x.n in g.main && g.main[x.n] == f.main[x.n].(data := g.main[x.n].data)
    ensures GetOk(g, tags, t, x)
  {
  }

  lemma StillHolds(content: seq<byte>, piece: seq<byte>, a: nat, b: nat)
    requires a <= b <= |content|
    ensures (content + piece)[a..b] == content[a..b]
    ensures (content + piece)[|content|..|content| + |piece|] == piece
  {
  }

  lemma FillTails(f: Frags, n: nat, piece: seq<byte>)
    requires n in f.main && n in f.content && f.main[n].data == f.content[n] && TailsOk(f)
    ensures TailsOk(FillFrag(f, n, piece))
  {
    var g := FillFrag(f, n, piece);
    StillHolds(f.content[n], piece, 0, 0);
    forall i | 0 <= i < |g.tails|
      ensures TailOk(g, g.tails[i])
    {
      if i < |f.tails| {
        var x := f.tails[i];
        assert TailOk(f, x);
        if x.n == n {
          StillHolds(f.content[n], piece, x.offset, x.offset + |x.data|);
        }
      }
    }
  }

  /** What a step on one fragment before it is placed may change. */
  ghost predicate OnlyAt(f: Frags, g: Frags, n: nat)
  {
    g.count == f.count && g.main == f.main && g.reserve == f.reserve && g.gets == f.gets &&
    g.content == f.content && g.tails == f.tails && g.failed == f.failed && n in f.stage &&
    g.stage.Keys == f.stage.Keys && (forall m :: m != n ==> SameAt(f.stage, g.stage, m)) &&
    (forall m :: m != n ==> SameAt(f.packed, g.packed, m)) && (forall m :: m != n ==> SameAt(f.table, g.table, m))
  }

  lemma StageKeeps(p: Params, f: Frags, g: Frags, tags: seq<nat>, tags': seq<nat>, live: map<int, Extent>,
                   live': map<int, Extent>, n: nat)
    requires FragInv(p, f, tags, live) && OnlyAt(f, g, n) && Grown(live, live') && !Late(f.stage[n])
    requires NoDup(tags') && (forall m :: m != n ==> (m in tags <==> m in tags'))
    requires FragmentOk(p, g, tags', live', n) && Tally(g)
    ensures FragInv(p, g, tags', live')
  {
    hide TailsOk, FragmentOk, GetOk, NoDup, Grown, BufsOk, StagesOk, Tally;
    assert Keys(g, tags') by {
      forall m | m in tags' || m in g.packed
        ensures m < g.count
      {
        if m != n {
          assert SameAt(f.packed, g.packed, m) && (m in tags <==> m in tags');
        }
      }
    }
    forall m | m in g.stage && m != n
      ensures SameFor(f, g, tags, tags', m)
    {
      assert SameAt(f.stage, g.stage, m) && SameAt(f.packed, g.packed, m) && SameAt(f.table, g.table, m);
    }
    StagesFrame(p, f, g, tags, tags', live, live', n);
    forall t | t in g.gets
      ensures GetOk(g, tags', t, g.gets[t])
    {
      GetHas(f, tags, t);
      var m := f.gets[t].n;
      if m != n {
        assert SameFor(f, g, tags, tags', m);
      }
      GetSame(f, g, tags, tags', t, f.gets[t]);
    }
    TailsSame(f, g);
    StageBufs(f, g, n);
  }

  lemma StageBufs(f: Frags, g: Frags, n: nat)
    requires BufsOk(f) && OnlyAt(f, g, n) && !Late(f.stage[n])
    ensures BufsOk(g)
  {
    assert n in f.main ==> BufOk(f, n, f.main[n]);
    assert n in f.reserve ==> BufOk(f, n, f.reserve[n]);
    hide BufsOk;
    assert n in f.main ==> n !in f.reserve by { if n in f.main { OneHome(f, n); } }
    assert n in f.reserve ==> Pipe !in f.reserve[n].holders by { if n in f.reserve { ReserveHome(f, n); } }
    BufsFrame(f, g, n);
  }

  lemma ReserveHome(f: Frags, n: nat)
    requires BufsOk(f) && n in f.reserve
    ensures Pipe !in f.reserve[n].holders && n !in f.main && BufOk(f, n, f.reserve[n])
  {
  }

  lemma CloseFragKeeps(p: Params, f: Frags, tags: seq<nat>, live: map<int, Extent>, n: nat)
    requires FragInv(p, f, tags, live) && CanClose(f, n)
    ensures FragInv(p, CloseFrag(f, n), tags, live)
  {
    hide TailsOk, GetsOk, NoDup, BufsOk, StagesOk, Mangle, Word;
    var g := CloseFrag(f, n);
    FragmentHas(p, f, tags, live, n);
    BusyMore(f, g, n);
    StageKeeps(p, f, g, tags, tags, live, live, n);
  }

  lemma TakeFragKeeps(p: Params, f: Frags, tags: seq<nat>, live: map<int, Extent>, n: nat)
    requires FragInv(p, f, tags, live) && n in f.stage && f.stage[n].Queued?
    ensures FragInv(p, TakeFrag(f, n), tags, live)
  {
    hide TailsOk, GetsOk, NoDup, BufsOk, StagesOk, Mangle, Word;
    var g := TakeFrag(f, n);
    FragmentHas(p, f, tags, live, n);
    BusySame(f, g);
    StageKeeps(p, f, g, tags, tags, live, live, n);
  }

  /** The buffer made for the compressed copy is the only one with that number. */
  lemma MakePackedKeeps(p: Params, f: Frags, tags: seq<nat>, live: map<int, Extent>, n: nat, junk: seq<byte>)
    requires FragInv(p, f, tags, live) && n in f.stage && f.stage[n].Taken?
    ensures n !in f.packed && FragInv(p, MakePacked(f, n, junk), tags, live)
  {
    hide TailsOk, GetsOk, NoDup, BufsOk, StagesOk, Mangle, Word;
    var g := MakePacked(f, n, junk);
    FragmentHas(p, f, tags, live, n);
    BusySame(f, g);
    StageKeeps(p, f, g, tags, tags, live, live, n);
  }

  lemma PackFragKeeps(p: Params, f: Frags, tags: seq<nat>, live: map<int, Extent>, n: nat)
    requires FragInv(p, f, tags, live) && n in f.stage && f.stage[n].Made?
    ensures n in f.main && n in f.packed && FragInv(p, PackFrag(p, f, n), tags, live)
  {
    hide TailsOk, GetsOk, NoDup, BufsOk, StagesOk, Mangle;
    FragmentHas(p, f, tags, live, n);
    var g := PackFrag(p, f, n);
    BusySame(f, g);
    StageKeeps(p, f, g, tags, tags, live, live, n);
  }

  lemma PendFragKeeps(p: Params, f: Frags, tags: seq<nat>, live: map<int, Extent>, n: nat)
    requires FragInv(p, f, tags, live) && n in f.stage && f.stage[n].Filled?
    ensures FragInv(p, PendFrag(f, n), tags, live)
  {
    hide TailsOk, GetsOk, NoDup, BufsOk, StagesOk, Mangle, Word;
    FragmentHas(p, f, tags, live, n);
    var g := PendFrag(f, n);
    BusySame(f, g);
    StageKeeps(p, f, g, tags, tags, live, live, n);
  }

  lemma PlaceFragKeeps(p: Params, f: Frags, tags: seq<nat>, live: map<int, Extent>, n: nat, bytes: int)
    requires FragInv(p, f, tags, live) && n in f.stage && f.stage[n].Filled? && bytes !in live
    ensures n in f.packed && f.packed[n].data != []
    ensures FragInv(p, PlaceFrag(f, n, bytes), tags + [n], live[bytes := FragBlock(f.packed[n].data, n)])
  {
    hide TailsOk, GetsOk, NoDup, BufsOk, StagesOk, Word, Mangle;
    FragmentHas(p, f, tags, live, n);
    PackedSome(p, n, f.content[n]);
    var g := PlaceFrag(f, n, bytes);
    BusyMore(g, f, n);
    NoDupSnoc(tags, n);
    StageKeeps(p, f, g, tags, tags + [n], live, live[bytes := FragBlock(f.packed[n].data, n)], n);
  }

  lemma PackedSome(p: Params, n: nat, data: seq<byte>)
    requires data != []
    ensures Mangle(PackerOf(p, n), data).data != []
  {
  }

  lemma UnlockFragKeeps(p: Params, f: Frags, tags: seq<nat>, live: map<int, Extent>, n: nat, bytes: int)
    requires FragInv(p, f, tags, live) && n in f.stage && f.stage[n].Pending? && bytes !in live
    ensures n in f.packed && f.packed[n].data != [] && n in f.table
    ensures FragInv(p, UnlockFrag(f, n, bytes), tags + [n], live[bytes := FragBlock(f.packed[n].data, n)])
  {
    hide TailsOk, NoDup, BufsOk, StagesOk, Word, Mangle, GetOk;
    FragmentHas(p, f, tags, live, n);
    PackedSome(p, n, f.content[n]);
    var g := UnlockFrag(f, n, bytes);
    BusyMore(g, f, n);
    NoDupSnoc(tags, n);
    StagesFrame(p, f, g, tags, tags + [n], live, live[bytes := FragBlock(f.packed[n].data, n)], n);
    forall t | t in g.gets
      ensures GetOk(g, tags + [n], t, g.gets[t])
    {
      GetHas(f, tags, t);
      if f.gets[t].n == n {
        GetUnlocked(f, n, tags, bytes, t);
      } else {
        GetSame(f, g, tags, tags + [n], t, f.gets[t]);
      }
    }
    TailsSame(f, g);
    UnlockBufs(f, n, bytes);
  }

  lemma GetUnlocked(f: Frags, n: nat, tags: seq<nat>, bytes: int, t: nat)
    requires t in f.gets && f.gets[t].n == n && GetOk(f, tags, t, f.gets[t]) && n in f.table && n in f.stage &&
             f.stage[n].Pending?
    ensures GetOk(UnlockFrag(f, n, bytes), tags + [n], t, f.gets[t])
  {
  }

  lemma UnlockBufs(f: Frags, n: nat, bytes: int)
    requires BufsOk(f) && n in f.table && n in f.stage && Late(f.stage[n])
    ensures BufsOk(UnlockFrag(f, n, bytes))
  {
    assert n in f.main ==> BufOk(f, n, f.main[n]);
    assert n in f.reserve ==> BufOk(f, n, f.reserve[n]);
    assert n in f.main ==> n !in f.reserve;
    assert n in f.reserve ==> Pipe !in f.reserve[n].holders;
    hide BufsOk;
    BufsFrame(f, UnlockFrag(f, n, bytes), n);
  }

  /** What a step of a cache or of a thread may change: users and buffers of one fragment. */
  ghost predicate UsersAt(f: Frags, g: Frags, tags: seq<nat>, tags': seq<nat>, n: nat)
  {
    g.count == f.count && g.stage == f.stage && g.outstanding == f.outstanding && g.table == f.table &&
    g.content == f.content && g.tails == f.tails && g.failed == f.failed && NoDup(tags') && n in f.stage &&
    (forall m :: m != n ==> SameAt(f.main, g.main, m) && SameAt(f.reserve, g.reserve, m)) &&
    (forall m :: m != n ==> SameAt(f.packed, g.packed, m)) && (forall m :: m in tags' ==> m in tags) &&
    (forall m :: m in tags && m != n ==> m in tags')
  }

  lemma UsersKeep(p: Params, f: Frags, g: Frags, tags: seq<nat>, tags': seq<nat>, live: map<int, Extent>, n: nat)
    requires FragInv(p, f, tags, live) && UsersAt(f, g, tags, tags', n) && FragmentOk(p, g, tags', live, n) &&
             GetsOk(g, tags')
    requires n in g.main ==> BufOk(g, n, g.main[n]) && n !in g.reserve
    requires n in g.reserve ==> BufOk(g, n, g.reserve[n]) && Pipe !in g.reserve[n].holders
    ensures FragInv(p, g, tags', live)
  {
    hide TailsOk, FragmentOk, GetOk, NoDup, BufsOk, StagesOk, GetsOk;
    BusySame(f, g);
    TailsSame(f, g);
    assert Keys(g, tags') by {
      forall m | m in g.packed
        ensures m < g.count
      {
        if m != n {
          assert SameAt(f.packed, g.packed, m);
        }
      }
    }
    forall m | m in g.stage && m != n
      ensures SameFor(f, g, tags, tags', m)
    {
      assert SameAt(f.main, g.main, m) && SameAt(f.packed, g.packed, m);
    }
    StagesFrame(p, f, g, tags, tags', live, live, n);
    BufsFrame(f, g, n);
  }

  ghost predicate BufKept(a: map<nat, FragBuf>, b: map<nat, FragBuf>, n: nat, h: Holder)
  {
    n in a && h in a[n].holders ==> n in b && h in b[n].holders && b[n].locked == a[n].locked
  }

  ghost predicate PackKept(a: map<nat, PackBuf>, b: map<nat, PackBuf>, n: nat, h: Holder)
  {
    n in a && h in a[n].holders ==> n in b && h in b[n].holders
  }

  /** A thread keeps its place when its own buffers stay and the queue does not grow. */
  lemma GetKept(f: Frags, g: Frags, tags: seq<nat>, tags': seq<nat>, t: nat, x: Get)
    requires GetOk(f, tags, t, x) && g.stage == f.stage && g.table == f.table
    requires BufKept(f.main, g.main, x.n, Thread(t)) && BufKept(f.reserve, g.reserve, x.n, Thread(t))
    requires PackKept(f.packed, g.packed, x.n, Thread(t)) && (x.n in tags' ==> x.n in tags)
    ensures GetOk(g, tags', t, x)
  {
  }

  /** Every thread but one keeps its place. */
  lemma GetsKept(f: Frags, g: Frags, tags: seq<nat>, tags': seq<nat>, t: nat)
    requires GetsOk(f, tags) && g.stage == f.stage && g.table == f.table && (forall m :: m in tags' ==> m in tags)
    requires forall u :: u != t && u in g.gets ==> u in f.gets && g.gets[u] == f.gets[u]
    requires forall u :: u != t && u in f.gets ==> BufKept(f.main, g.main, f.gets[u].n, Thread(u))
    requires forall u :: u != t && u in f.gets ==> BufKept(f.reserve, g.reserve, f.gets[u].n, Thread(u))
    requires forall u :: u != t && u in f.gets ==> PackKept(f.packed, g.packed, f.gets[u].n, Thread(u))
    requires t in g.gets ==> GetOk(g, tags', t, g.gets[t])
    requires t in g.gets && IsFiller(g.gets[t]) ==>
               forall u :: u != t && u in f.gets && IsFiller(f.gets[u]) ==> f.gets[u].n != g.gets[t].n
    ensures GetsOk(g, tags')
  {
    hide GetOk, BufKept, PackKept;
    forall u | u in g.gets
      ensures GetOk(g, tags', u, g.gets[u])
    {
      if u != t {
        GetHas(f, tags, u);
        GetKept(f, g, tags, tags', u, f.gets[u]);
      }
    }
  }

  lemma MainHome(f: Frags, n: nat)
    requires BufsOk(f) && n in f.main
    ensures BufOk(f, n, f.main[n]) && n !in f.reserve
  {
  }

  lemma ReleaseFragKeeps(p: Params, f: Frags, tags: seq<nat>, live: map<int, Extent>, n: nat)
    requires FragInv(p, f, tags, live) && CanRelease(f, n)
    ensures FragInv(p, ReleaseFrag(f, n), tags, live)
  {
    hide TailsOk, NoDup, BufsOk, StagesOk, GetsOk, Word, Mangle;
    var g := ReleaseFrag(f, n);
    FragmentHas(p, f, tags, live, n);
    MainHome(f, n);
    NobodyMoved(f, g, tags, tags);
    UsersKeep(p, f, g, tags, tags, live, n);
  }

  /** No thread has lost a buffer. */
  lemma NobodyMoved(f: Frags, g: Frags, tags: seq<nat>, tags': seq<nat>)
    requires GetsOk(f, tags) && g.stage == f.stage && g.table == f.table && g.gets == f.gets &&
             (forall m :: m in tags' ==> m in tags)
    requires forall t, n :: BufKept(f.main, g.main, n, Thread(t))
    requires forall t, n :: BufKept(f.reserve, g.reserve, n, Thread(t))
    requires forall t, n :: PackKept(f.packed, g.packed, n, Thread(t))
    ensures GetsOk(g, tags')
  {
    hide GetOk, BufKept, PackKept;
    forall u | u in g.gets
      ensures GetOk(g, tags', u, g.gets[u])
    {
      GetHas(f, tags, u);
      GetKept(f, g, tags, tags', u, f.gets[u]);
    }
  }

  lemma EvictKeeps(p: Params, f: Frags, tags: seq<nat>, live: map<int, Extent>, home: Home, n: nat)
    requires FragInv(p, f, tags, live) && CanEvict(f, home, n)
    ensures FragInv(p, Evict(f, home, n), tags, live)
  {
    hide TailsOk, NoDup, BufsOk, StagesOk, GetsOk, Word, Mangle;
    var g := Evict(f, home, n);
    if home.MainCache? {
      MainHome(f, n);
    } else {
      ReserveHome(f, n);
    }
    FragmentHas(p, f, tags, live, n);
    NobodyMoved(f, g, tags, tags);
    UsersKeep(p, f, g, tags, tags, live, n);
  }

  lemma EvictPackedKeeps(p: Params, f: Frags, tags: seq<nat>, live: map<int, Extent>, n: nat)
    requires FragInv(p, f, tags, live) && CanEvictPacked(f, n)
    ensures FragInv(p, EvictPacked(f, n), tags, live)
  {
    hide TailsOk, NoDup, BufsOk, StagesOk, GetsOk, Word, Mangle;
    var g := EvictPacked(f, n);
    FragmentHas(p, f, tags, live, n);
    HomeOf(f, n);
    NobodyMoved(f, g, tags, tags);
    UsersKeep(p, f, g, tags, tags, live, n);
  }

  lemma HomeOf(f: Frags, n: nat)
    requires BufsOk(f)
    ensures n in f.main ==> BufOk(f, n, f.main[n]) && n !in f.reserve
    ensures n in f.reserve ==> BufOk(f, n, f.reserve[n]) && Pipe !in f.reserve[n].holders
  {
  }

  /** The writer puts the buffer of the fragment it has just written. */
  lemma PutPackedKeeps(p: Params, f: Frags, tags: seq<nat>, live: map<int, Extent>)
    requires FragInv(p, f, tags, live) && tags != []
    ensures FragInv(p, PutPacked(f, tags[0]), tags[1..], live)
  {
    hide TailsOk, NoDup, BufsOk, StagesOk, GetsOk, Word, Mangle;
    var n := tags[0];
    var g := PutPacked(f, n);
    assert n in tags;
    FragmentHas(p, f, tags, live, n);
    HomeOf(f, n);
    NoDupTail(tags);
    assert tags == [n] + tags[1..];
    NobodyMoved(f, g, tags, tags[1..]);
    UsersKeep(p, f, g, tags, tags[1..], live, n);
  }

  // ---------- get_fragment keeps it ----------

  lemma StartGetFinds(p: Params, f: Frags, tags: seq<nat>, live: map<int, Extent>, t: nat, n: nat, home: Home,
                      junk: seq<byte>)
    requires FragInv(p, f, tags, live) && CanGet(f, t, n) && (n in f.main || n in f.reserve)
    ensures FragInv(p, StartGet(f, t, n, home, junk), tags, live)
  {
    hide TailsOk, NoDup, BufsOk, StagesOk, GetsOk, Word, Mangle;
    var g := StartGet(f, t, n, home, junk);
    FragmentHas(p, f, tags, live, n);
    HomeOf(f, n);
    GetsKept(f, g, tags, tags, t);
    UsersKeep(p, f, g, tags, tags, live, n);
  }

  /** A fragment in neither cache has been placed or is pending, and nobody else is
      fetching it. */
  lemma StartGetMakes(p: Params, f: Frags, tags: seq<nat>, live: map<int, Extent>, t: nat, n: nat, home: Home,
                      junk: seq<byte>)
    requires FragInv(p, f, tags, live) && CanGet(f, t, n) && n !in f.main && n !in f.reserve
    ensures Late(f.stage[n]) && FragInv(p, StartGet(f, t, n, home, junk), tags, live)
  {
    hide TailsOk, NoDup, BufsOk, StagesOk, GetsOk, Word, Mangle;
    var g := StartGet(f, t, n, home, junk);
    FragmentHas(p, f, tags, live, n);
    forall u | u in f.gets
      ensures f.gets[u].n != n
    {
      GetHas(f, tags, u);
    }
    GetsKept(f, g, tags, tags, t);
    UsersKeep(p, f, g, tags, tags, live, n);
  }

  lemma FinishWaitKeeps(p: Params, f: Frags, tags: seq<nat>, live: map<int, Extent>, t: nat)
    requires FragInv(p, f, tags, live) && CanFinishWait(f, t)
    ensures FragInv(p, FinishWait(f, t), tags, live)
  {
    hide TailsOk, NoDup, BufsOk, StagesOk, GetsOk, Word, Mangle;
    var g, n := FinishWait(f, t), f.gets[t].n;
    GetHas(f, tags, t);
    FragmentHas(p, f, tags, live, n);
    HomeOf(f, n);
    GetsKept(f, g, tags, tags, t);
    UsersKeep(p, f, g, tags, tags, live, n);
  }

  lemma OneFiller(f: Frags, tags: seq<nat>, t: nat, u: nat)
    requires GetsOk(f, tags) && t in f.gets && u in f.gets && t != u && IsFiller(f.gets[t]) && IsFiller(f.gets[u])
    ensures f.gets[t].n != f.gets[u].n
  {
  }

  /** When there is no compressed copy the fragment has been written. */
  lemma LookPackedKeeps(p: Params, f: Frags, tags: seq<nat>, live: map<int, Extent>, t: nat)
    requires FragInv(p, f, tags, live) && t in f.gets && f.gets[t].Begun?
    ensures FragInv(p, LookPacked(f, t), tags, live)
  {
    hide TailsOk, NoDup, BufsOk, StagesOk, GetsOk, Word, Mangle;
    var g, n := LookPacked(f, t), f.gets[t].n;
    GetHas(f, tags, t);
    FragmentHas(p, f, tags, live, n);
    HomeOf(f, n);
    forall u | u != t && u in f.gets && IsFiller(f.gets[u])
      ensures f.gets[u].n != n
    {
      OneFiller(f, tags, t, u);
    }
    GetsKept(f, g, tags, tags, t);
    UsersKeep(p, f, g, tags, tags, live, n);
  }

  lemma ReadRowKeeps(p: Params, f: Frags, tags: seq<nat>, live: map<int, Extent>, t: nat)
    requires FragInv(p, f, tags, live) && t in f.gets && f.gets[t].Looked?
    ensures f.gets[t].n in f.table && FragInv(p, ReadRow(f, t), tags, live)
  {
    hide TailsOk, NoDup, BufsOk, StagesOk, GetsOk, Word, Mangle;
    var n := f.gets[t].n;
    GetHas(f, tags, t);
    FragmentHas(p, f, tags, live, n);
    var g := ReadRow(f, t);
    HomeOf(f, n);
    forall u | u != t && u in f.gets && IsFiller(f.gets[u])
      ensures f.gets[u].n != n
    {
      OneFiller(f, tags, t, u);
    }
    GetsKept(f, g, tags, tags, t);
    UsersKeep(p, f, g, tags, tags, live, n);
  }

  lemma EndGetKeeps(p: Params, f: Frags, tags: seq<nat>, live: map<int, Extent>, t: nat)
    requires FragInv(p, f, tags, live) && t in f.gets && f.gets[t].Got?
    ensures f.gets[t].n in CacheOf(f, f.gets[t].home) && FragInv(p, EndGet(f, t), tags, live)
  {
    hide TailsOk, NoDup, BufsOk, StagesOk, GetsOk, Word, Mangle;
    var n := f.gets[t].n;
    GetHas(f, tags, t);
    FragmentHas(p, f, tags, live, n);
    var g := EndGet(f, t);
    HomeOf(f, n);
    GetsKept(f, g, tags, tags, t);
    UsersKeep(p, f, g, tags, tags, live, n);
  }

  /** Every placed fragment the writer has dealt with is on the disk. */
  ghost predicate FragsOnDisk(disk: Disk, tags: seq<nat>, live: map<int, Extent>)
  {
    forall a :: a in live && live[a].FragBlock? && live[a].n !in tags ==> OnDisk(disk, a, live[a].data)
  }

  /** A fragment that has left the caches is always recovered exactly. */
  lemma RecoverRight(p: Params, f: Frags, tags: seq<nat>, live: map<int, Extent>, disk: Disk, t: nat)
    requires ParamsOk(p) && FragInv(p, f, tags, live) && FragsOnDisk(disk, tags, live) && t in f.gets &&
             f.gets[t].HasRow?
    ensures f.gets[t].n in f.content && Recover(p, f, disk, f.gets[t]) == Some(f.content[f.gets[t].n])
  {
    hide TailsOk, NoDup, BufsOk, StagesOk, GetsOk, Lossless, Mangle, Unmangle, ReadDisk, OnDisk;
    hide DataWord, DataWordSize, DataWordRaw;
    var g := f.gets[t];
    GetHas(f, tags, t);
    FragmentHas(p, f, tags, live, g.n);
    var st := Mangle(PackerOf(p, g.n), f.content[g.n]);
    PackedFits(p, g.n, f.content[g.n]);
    DataWordDecodes(st);
    assert Readable(p, g.n);
    MangleRoundTrip(PackerOf(p, g.n), f.content[g.n], p.block);
    UnmangleAlike(PackerOf(p, g.n).codec, p.packer.codec, st, p.block);
    assert st == Stored(st.raw, st.data);
    assert st.data[..|st.data|] == st.data;
    if !g.cached {
      ReadDiskBack(disk, g.row.start, st.data, |st.data|);
    }
  }

  lemma PackedFits(p: Params, n: nat, data: seq<byte>)
    requires ParamsOk(p) && |data| <= p.block
    ensures |Mangle(PackerOf(p, n), data).data| < DATA_BIT
  {
  }

  lemma UnmangleAlike(a: Codec, b: Codec, st: Stored, room: nat)
    requires a.uncompress == b.uncompress
    ensures Unmangle(a, st, room) == Unmangle(b, st, room)
  {
  }

  lemma FillGetKeeps(p: Params, f: Frags, tags: seq<nat>, live: map<int, Extent>, disk: Disk, t: nat)
    requires ParamsOk(p) && FragInv(p, f, tags, live) && FragsOnDisk(disk, tags, live) && t in f.gets &&
             f.gets[t].HasRow?
    ensures f.gets[t].n in CacheOf(f, f.gets[t].home) && FragInv(p, FillGet(p, f, disk, t), tags, live)
  {
    hide TailsOk, NoDup, BufsOk, StagesOk, GetsOk, Word, Mangle, Recover, FragsOnDisk, ParamsOk;
    var n := f.gets[t].n;
    GetHas(f, tags, t);
    RecoverRight(p, f, tags, live, disk, t);
    FragmentHas(p, f, tags, live, n);
    var g := FillGet(p, f, disk, t);
    HomeOf(f, n);
    FillGets(p, f, tags, disk, t);
    UsersKeep(p, f, g, tags, tags, live, n);
  }

  /** The threads that found the buffer locked go on waiting for it. */
  lemma FillGets(p: Params, f: Frags, tags: seq<nat>, disk: Disk, t: nat)
    requires GetsOk(f, tags) && t in f.gets && f.gets[t].HasRow? && f.gets[t].n in CacheOf(f, f.gets[t].home)
    requires Recover(p, f, disk, f.gets[t]).Some?
    requires var n := f.gets[t].n;
             !(n in f.main && n in f.reserve)
    ensures GetsOk(FillGet(p, f, disk, t), tags)
  {
    hide Recover, GetOk;
    var g, n := FillGet(p, f, disk, t), f.gets[t].n;
    assert g.gets == f.gets[t := Got(n, f.gets[t].home)];
    forall u | u in g.gets
      ensures GetOk(g, tags, u, g.gets[u])
    {
      GetHas(f, tags, u);
      if u == t {
        FillOwn(p, f, tags, disk, t);
      } else if f.gets[u].n == n {
        WaiterStays(p, f, tags, disk, t, u);
      } else {
        FillElsewhere(p, f, tags, disk, t, u);
      }
    }
  }

  lemma FillElsewhere(p: Params, f: Frags, tags: seq<nat>, disk: Disk, t: nat, u: nat)
    requires t in f.gets && f.gets[t].HasRow? && f.gets[t].n in CacheOf(f, f.gets[t].home) &&
             Recover(p, f, disk, f.gets[t]).Some?
    requires u in f.gets && GetOk(f, tags, u, f.gets[u]) && f.gets[u].n != f.gets[t].n
    ensures GetOk(FillGet(p, f, disk, t), tags, u, f.gets[u])
  {
    hide Recover, GetOk;
    assert f.gets[u].n in f.stage by { GetStage(f, tags, u, f.gets[u]); }
    GetSame(f, FillGet(p, f, disk, t), tags, tags, u, f.gets[u]);
  }

  lemma GetStage(f: Frags, tags: seq<nat>, t: nat, x: Get)
    requires GetOk(f, tags, t, x)
    ensures x.n in f.stage
  {
  }

  lemma FillOwn(p: Params, f: Frags, tags: seq<nat>, disk: Disk, t: nat)
    requires t in f.gets && f.gets[t].HasRow? && GetOk(f, tags, t, f.gets[t]) && Recover(p, f, disk, f.gets[t]).Some?
    ensures GetOk(FillGet(p, f, disk, t), tags, t, Got(f.gets[t].n, f.gets[t].home))
  {
    hide Recover;
  }

  lemma WaiterStays(p: Params, f: Frags, tags: seq<nat>, disk: Disk, t: nat, u: nat)
    requires GetsOk(f, tags) && t in f.gets && u in f.gets && u != t && f.gets[t].HasRow? && f.gets[u].n == f.gets[t].n
    requires f.gets[t].n in CacheOf(f, f.gets[t].home) && Recover(p, f, disk, f.gets[t]).Some?
    requires var n := f.gets[t].n;
             !(n in f.main && n in f.reserve)
    ensures GetOk(FillGet(p, f, disk, t), tags, u, f.gets[u])
  {
    hide Recover, GetsOk;
    GetHas(f, tags, u);
    GetHas(f, tags, t);
    if IsFiller(f.gets[u]) {
      OneFiller(f, tags, t, u);
    }
  }

  // ---------- what the invariant is for ----------

  /** A buffer get_fragment has returned holds every tail end recorded in its fragment. */
  lemma GotHoldsTails(p: Params, f: Frags, tags: seq<nat>, live: map<int, Extent>, t: nat, i: nat)
    requires FragInv(p, f, tags, live) && t in f.gets && f.gets[t].Got? && i < |f.tails| && f.tails[i].n == f.gets[t].n
    ensures f.gets[t].n in CacheOf(f, f.gets[t].home)
    ensures var data, x := CacheOf(f, f.gets[t].home)[f.gets[t].n].data, f.tails[i];
            x.offset + |x.data| <= |data| && data[x.offset..x.offset + |x.data|] == x.data
  {
    hide StagesOk;
    GetHas(f, tags, t);
    HomeOf(f, f.gets[t].n);
    assert TailOk(f, f.tails[i]);
  }

  /** When the final wait sees no fragment outstanding and main has closed every fragment,
      every fragment has a place that holds its compressed bytes. */
  lemma NoneOutstanding(p: Params, f: Frags, tags: seq<nat>, live: map<int, Extent>, n: nat)
    requires FragInv(p, f, tags, live) && f.outstanding == 0 && n < f.count && !f.stage[n].Open?
    ensures f.stage[n].Placed? && n in f.table && f.table[n].start in live && n in f.content
    ensures live[f.table[n].start] == FragBlock(Mangle(PackerOf(p, n), f.content[n]).data, n)
    ensures f.table[n].word == Word(p, n, f.content[n])
  {
    hide TailsOk, GetsOk, BufsOk, Mangle, Word;
    assert n in f.stage;
    assert n !in Busy(f);
    FragmentHas(p, f, tags, live, n);
  }
}
