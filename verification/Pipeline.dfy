/** The whole output pipeline as one state machine: main placing the blocks of one file at
    a time, deflators, fragment deflators, the writer, and threads fetching fragments, in
    every interleaving of their steps. */
module Pipeline {
  import opened Bytes
  import opened Compressor
  import opened LeavingOrder
  import opened WriteCache
  import opened Fragments

  /** The stored blocks of a file; sparse blocks take no room and do not appear. */
  datatype File = File(start: int, blocks: seq<seq<byte>>)

  /** - bytes: where the next extent goes;
      - locked: fragments may not be placed;
      - cur: the file main is writing;
      - files: the files recorded so far. */
  datatype State = State(c: Cache, bytes: int, locked: bool, cur: Option<File>, files: seq<File>, fr: Frags)

  datatype Step =
    // deflators
    | AllocBuf(id: nat) | RecycleBuf | FillBuf(id: nat, buf: Buf)
    // the writer
    | WriteNext
    // main and file blocks
    | Begin | PlaceBlock(id: nat, hold: bool) | QueueNextHeld | Commit | Discard | DropNextHeld | TruncateOutput
    | Lookup(a: int) | PutBack(y: nat) | ReadMissed(a: int)
    // main and fragments
    | NewFragment | FillFragment(n: nat, piece: seq<byte>) | CloseFragment(n: nat) | UnlockOne(n: nat) | UnlockDone
    // fragment deflators
    | TakeFragment(n: nat) | MakeCopy(n: nat, junk: seq<byte>) | PackFragment(n: nat) | PlaceFragment(n: nat)
    | Release(n: nat)
    // recycling
    | EvictBuf(home: Home, n: nat) | EvictCopy(n: nat)
    // threads in get_fragment
    | GetStart(t: nat, n: nat, home: Home, junk: seq<byte>) | GetWaited(t: nat) | GetLook(t: nat) | GetRow(t: nat)
    | GetFill(t: nat) | GetEnd(t: nat)

  /** The bytes the first k blocks take. */
  function Length(blocks: seq<seq<byte>>, k: nat): nat
    requires k <= |blocks|
  {
    if k == 0 then 0 else Length(blocks, k - 1) + |blocks[k - 1]|
  }

  function Address(f: File, k: nat): int
    requires k <= |f.blocks|
  {
    f.start + Length(f.blocks, k)
  }

  function End(f: File): int { Address(f, |f.blocks|) }

  /** The fragments in the writer's queue. */
  function FragTags(q: seq<Item>): seq<nat>
  {
    if q == [] then [] else (if q[0].tag.Frag? then [q[0].tag.n] else []) + FragTags(q[1..])
  }

  predicate Idle(s: State) { s.c.pins == {} && s.c.missed == {} }

  ghost predicate CanStep(p: Params, s: State, step: Step)
  {
    var c, f := s.c, s.fr;
    match step
    case AllocBuf(id) => CanAlloc(c, id)
    case RecycleBuf => CanRecycle(c)
    case FillBuf(id, _) => CanFill(c, id)
    case WriteNext => CanWrite(c)
    case Begin => s.cur.None? && c.held == [] && Idle(s)
    case PlaceBlock(id, hold) => s.cur.Some? && Idle(s) && id in c.owned && id in c.bufs && c.bufs[id].data != [] &&
      (!hold ==> c.held == [])
    case QueueNextHeld => s.cur.Some? && Idle(s) && c.held != [] && c.held[0] in c.bufs
    case Commit => s.cur.Some? && Idle(s) && c.held == []
    case Discard => s.cur.Some? && Idle(s)
    case DropNextHeld => s.cur.None? && Idle(s) && c.held != []
    case TruncateOutput => s.cur.None? && s.locked && c.queue == []
    case Lookup(a) => IsBlock(c, a)
    case PutBack(y) => CanUnpin(c, y)
    case ReadMissed(a) => a in c.missed
    case NewFragment => true
    case FillFragment(n, piece) => CanFillFrag(p, f, n, piece)
    case CloseFragment(n) => CanClose(f, n)
    case UnlockOne(n) => s.cur.None? && n in f.stage && f.stage[n].Pending? && n in f.table && n in f.packed
    case UnlockDone => s.cur.None? && forall n :: n in f.stage ==> !f.stage[n].Pending?
    case TakeFragment(n) => n in f.stage && f.stage[n].Queued?
    case MakeCopy(n, _) => n in f.stage && f.stage[n].Taken?
    case PackFragment(n) => n in f.stage && f.stage[n].Made? && n in f.main && n in f.packed
    case PlaceFragment(n) => n in f.stage && f.stage[n].Filled? && n in f.packed
    case Release(n) => CanRelease(f, n)
    case EvictBuf(home, n) => CanEvict(f, home, n)
    case EvictCopy(n) => CanEvictPacked(f, n)
    case GetStart(t, n, _, _) => CanGet(f, t, n)
    case GetWaited(t) => CanFinishWait(f, t)
    case GetLook(t) => t in f.gets && f.gets[t].Begun?
    case GetRow(t) => t in f.gets && f.gets[t].Looked? && f.gets[t].n in f.table
    case GetFill(t) => t in f.gets && f.gets[t].HasRow? && f.gets[t].n in CacheOf(f, f.gets[t].home)
    case GetEnd(t) => t in f.gets && f.gets[t].Got? && f.gets[t].n in CacheOf(f, f.gets[t].home)
  }

  function DoPlaceBlock(s: State, id: nat, hold: bool): State
    requires s.cur.Some? && id in s.c.bufs
  {
    var data, f := s.c.bufs[id].data, s.cur.value;
    s.(c := Place(s.c, id, s.bytes, hold), bytes := s.bytes + |data|, cur := Some(File(f.start, f.blocks + [data])))
  }

  /** The extents a rollback to this address gives up. */
  function Above(live: map<int, Extent>, start: int): set<int> { set a | a in live && a >= start }

  function DoDiscard(s: State): State
    requires s.cur.Some?
  {
    var start := s.cur.value.start;
    s.(c := Forget(s.c, Above(s.c.live, start)), bytes := start, cur := None)
  }

  function DoWrite(s: State): State
    requires s.c.queue != []
  {
    var it := s.c.queue[0];
    s.(c := Write(s.c), fr := if it.tag.Frag? then PutPacked(s.fr, it.tag.n) else s.fr)
  }

  function DoPlaceFragment(s: State, n: nat): State
    requires n in s.fr.stage && s.fr.stage[n].Filled? && n in s.fr.packed
  {
    if s.locked then s.(fr := PendFrag(s.fr, n)) else
      var data := s.fr.packed[n].data;
      s.(c := QueueFrag(s.c, n, s.bytes, data), bytes := s.bytes + |data|, fr := PlaceFrag(s.fr, n, s.bytes))
  }

  function DoUnlockOne(s: State, n: nat): State
    requires n in s.fr.table && n in s.fr.packed
  {
    var data := s.fr.packed[n].data;
    s.(c := QueueFrag(s.c, n, s.bytes, data), bytes := s.bytes + |data|, fr := UnlockFrag(s.fr, n, s.bytes))
  }

  ghost function Next(p: Params, s: State, step: Step): State
    requires CanStep(p, s, step)
  {
    var c, f := s.c, s.fr;
    match step
    case AllocBuf(id) => s.(c := Alloc(c, id))
    case RecycleBuf => s.(c := Recycle(c))
    case FillBuf(id, buf) => s.(c := Fill(c, id, buf))
    case WriteNext => DoWrite(s)
    case Begin => s.(locked := true, cur := Some(File(s.bytes, [])))
    case PlaceBlock(id, hold) => DoPlaceBlock(s, id, hold)
    case QueueNextHeld => s.(c := QueueHeld(c))
    case Commit => s.(files := s.files + [s.cur.value], cur := None)
    case Discard => DoDiscard(s)
    case DropNextHeld => s.(c := DropHeld(c))
    case TruncateOutput => s.(c := Truncate(c, s.bytes))
    case Lookup(a) => s.(c := if Newest(c, a).Some? then Pin(c, a) else Miss(c, a))
    case PutBack(y) => s.(c := Unpin(c, y))
    case ReadMissed(a) => s.(c := DiskRead(c, a))
    case NewFragment => s.(fr := AllocFrag(f))
    case FillFragment(n, piece) => s.(fr := FillFrag(f, n, piece))
    case CloseFragment(n) => s.(fr := CloseFrag(f, n))
    case UnlockOne(n) => DoUnlockOne(s, n)
    case UnlockDone => s.(locked := false)
    case TakeFragment(n) => s.(fr := TakeFrag(f, n))
    case MakeCopy(n, junk) => s.(fr := MakePacked(f, n, junk))
    case PackFragment(n) => s.(fr := PackFrag(p, f, n))
    case PlaceFragment(n) => DoPlaceFragment(s, n)
    case Release(n) => s.(fr := ReleaseFrag(f, n))
    case EvictBuf(home, n) => s.(fr := Evict(f, home, n))
    case EvictCopy(n) => s.(fr := EvictPacked(f, n))
    case GetStart(t, n, home, junk) => s.(fr := StartGet(f, t, n, home, junk))
    case GetWaited(t) => s.(fr := FinishWait(f, t))
    case GetLook(t) => s.(fr := LookPacked(f, t))
    case GetRow(t) => s.(fr := ReadRow(f, t))
    case GetFill(t) => s.(fr := FillGet(p, f, c.disk, t))
    case GetEnd(t) => s.(fr := EndGet(f, t))
  }

  // ---------- the invariant ----------

  ghost predicate FileLive(live: map<int, Extent>, f: File)
  {
    forall k :: 0 <= k < |f.blocks| ==> BlockLive(live, f, k)
  }

  ghost predicate BlockLive(live: map<int, Extent>, f: File, k: nat)
    requires k < |f.blocks|
  {
    Address(f, k) in live && live[Address(f, k)] == FileBlock(f.blocks[k])
  }

  ghost predicate AllBelow(live: map<int, Extent>, bytes: int)
  {
    forall a :: a in live ==> a + |live[a].data| <= bytes
  }

  ghost predicate FilesApart(files: seq<File>)
  {
    forall i, j :: 0 <= i < j < |files| ==> End(files[i]) <= files[j].start || End(files[j]) <= files[i].start
  }

  ghost predicate FilesBelow(files: seq<File>, bytes: int)
  {
    forall i :: 0 <= i < |files| ==> End(files[i]) <= bytes
  }

  ghost predicate FilesLive(live: map<int, Extent>, files: seq<File>)
  {
    forall i :: 0 <= i < |files| ==> FileLive(live, files[i])
  }

  /** With no file being written, what main still keeps belongs to a discarded one. */
  ghost predicate Leftovers(c: Cache)
  {
    forall h :: h in c.held ==> h in c.bufs && !IsBlock(c, c.bufs[h].index)
  }

  /** The file being written reaches up to `bytes`, and only it has been placed since. */
  ghost predicate Writing(s: State, f: File)
  {
    s.locked && FileLive(s.c.live, f) && End(f) == s.bytes && FilesBelow(s.files, f.start) &&
    (forall a :: a in s.c.live && a >= f.start ==> s.c.live[a].FileBlock?) &&
    (forall a :: a in s.c.live && a < f.start ==> a + |s.c.live[a].data| <= f.start) &&
    forall h :: h in s.c.held ==>
      h in s.c.bufs && IsBlock(s.c, s.c.bufs[h].index) && f.start <= s.c.bufs[h].index < s.bytes
  }

  ghost predicate ExtInv(s: State)
  {
    AllBelow(s.c.live, s.bytes) && FilesApart(s.files) && FilesBelow(s.files, s.bytes) &&
      FilesLive(s.c.live, s.files) &&
    if s.cur.Some? then Writing(s, s.cur.value) else Leftovers(s.c)
  }

  ghost predicate PipeInv(p: Params, s: State)
  {
    Inv(s.c) && ExtInv(s) && FragInv(p, s.fr, FragTags(s.c.queue), s.c.live)
  }

  // ---------- steps inside the block cache ----------

  /** The extents and the queued fragments are the same, and main keeps no new buffer. */
  ghost predicate Inside(c: Cache, d: Cache)
  {
    d.live == c.live && FragTags(d.queue) == FragTags(c.queue) &&
    forall h :: h in d.held ==> h in c.held && h in c.bufs && h in d.bufs && d.bufs[h] == c.bufs[h]
  }

  lemma InsideKeeps(p: Params, s: State, d: Cache)
    requires PipeInv(p, s) && Inv(d) && Inside(s.c, d)
    ensures PipeInv(p, s.(c := d))
  {
    hide Inv, FragInv, FileLive, FragTags;
  }

  lemma HeldBuf(c: Cache, h: nat)
    requires Inv(c) && h in c.held
    ensures h in c.bufs && h !in c.owned && h in c.hashed
  {
    HeldHashed(c, h);
  }

  lemma {:induction false} FragTagsSnoc(q: seq<Item>, it: Item)
    ensures FragTags(q + [it]) == FragTags(q) + if it.tag.Frag? then [it.tag.n] else []
  {
    if q == [] {
      assert q + [it] == [it];
    } else {
      assert (q + [it])[1..] == q[1..] + [it];
      FragTagsSnoc(q[1..], it);
      Assoc(if q[0].tag.Frag? then [q[0].tag.n] else [], FragTags(q[1..]), if it.tag.Frag? then [it.tag.n] else []);
    }
  }

  ghost predicate IsCacheStep(step: Step)
  {
    step.AllocBuf? || step.RecycleBuf? || step.FillBuf? || step.QueueNextHeld? || step.DropNextHeld? ||
    step.TruncateOutput? || step.Lookup? || step.PutBack? || step.ReadMissed?
  }

  lemma CacheStepKeeps(p: Params, s: State, step: Step)
    requires PipeInv(p, s) && CanStep(p, s, step) && IsCacheStep(step)
    ensures PipeInv(p, Next(p, s, step))
  {
    hide Inv, FragInv, FragTags, First, Without;
    var c := s.c;
    forall h | h in c.held
      ensures h in c.bufs && h !in c.owned
    {
      HeldBuf(c, h);
    }
    match step
    case AllocBuf(id) =>
      AllocKeeps(c, id);
      InsideKeeps(p, s, Alloc(c, id));
    case RecycleBuf =>
      RecycleKeeps(c);
      InsideKeeps(p, s, Recycle(c));
    case FillBuf(id, buf) =>
      FillKeeps(c, id, buf);
      InsideKeeps(p, s, Fill(c, id, buf));
    case QueueNextHeld =>
      assert c.held[0] in c.held;
      QueueHeldKeeps(c);
      FragTagsSnoc(c.queue, Item(c.bufs[c.held[0]].index, c.bufs[c.held[0]].data, Block(c.held[0])));
      InsideKeeps(p, s, QueueHeld(c));
    case DropNextHeld =>
      assert c.held[0] in c.held;
      DropHeldKeeps(c);
      InsideKeeps(p, s, DropHeld(c));
    case TruncateOutput =>
      TruncateKeeps(c, s.bytes);
      InsideKeeps(p, s, Truncate(c, s.bytes));
    case Lookup(a) =>
      if Newest(c, a).Some? {
        PinKeeps(c, a);
        InsideKeeps(p, s, Pin(c, a));
      } else {
        MissKeeps(c, a);
        InsideKeeps(p, s, Miss(c, a));
      }
    case PutBack(y) =>
      UnpinKeeps(c, y);
      InsideKeeps(p, s, Unpin(c, y));
    case ReadMissed(a) =>
      DiskReadKeeps(c, a);
      InsideKeeps(p, s, DiskRead(c, a));
  }

  lemma WriteNextKeeps(p: Params, s: State)
    requires PipeInv(p, s) && s.c.queue != []
    ensures PipeInv(p, DoWrite(s))
  {
    hide Inv, FragInv;
    var c, d, it := s.c, Write(s.c), s.c.queue[0];
    WriteKeeps(c);
    forall h | h in c.held
      ensures h in c.bufs
    {
      HeldBuf(c, h);
    }
    assert ExtInv(s.(c := d));
    var tags := FragTags(c.queue);
    if it.tag.Frag? {
      assert tags[0] == it.tag.n && tags[1..] == FragTags(d.queue);
      PutPackedKeeps(p, s.fr, tags, c.live);
    } else {
      assert tags == FragTags(d.queue);
    }
  }

  // ---------- steps inside the fragment caches ----------

  ghost predicate IsFragStep(step: Step)
  {
    step.NewFragment? || step.FillFragment? || step.CloseFragment? || step.TakeFragment? || step.MakeCopy? ||
    step.PackFragment? || step.Release? || step.EvictBuf? || step.EvictCopy?
  }

  ghost predicate IsGetStep(step: Step)
  {
    step.GetStart? || step.GetWaited? || step.GetLook? || step.GetRow? || step.GetFill? || step.GetEnd?
  }

  lemma FragsWritten(c: Cache)
    requires Inv(c)
    ensures FragsOnDisk(c.disk, FragTags(c.queue), c.live)
  {
    forall a | a in c.live && c.live[a].FragBlock? && c.live[a].n !in FragTags(c.queue)
      ensures OnDisk(c.disk, a, c.live[a].data)
    {
      assert FragOk(c, a);
      var w := Item(a, c.live[a].data, Frag(c.live[a].n));
      if Coming(c.queue, w) {
        var k: nat :| ComingAt(c.queue, w, k);
        InTags(c.queue, k);
      }
    }
  }

  lemma {:induction false} InTags(q: seq<Item>, k: nat)
    requires k < |q| && q[k].tag.Frag?
    ensures q[k].tag.n in FragTags(q)
  {
    if k > 0 {
      InTags(q[1..], k - 1);
    }
  }

  lemma FragStepKeeps(p: Params, s: State, step: Step)
    requires PipeInv(p, s) && CanStep(p, s, step) && IsFragStep(step)
    ensures PipeInv(p, Next(p, s, step))
  {
    hide Inv, FragInv, FragTags, ExtInv, CanFillFrag, CanClose, CanRelease, CanEvict, CanEvictPacked;
    hide AllocFrag, FillFrag, CloseFrag, TakeFrag, MakePacked, PackFrag, ReleaseFrag, Evict, EvictPacked;
    var f, tags, live := s.fr, FragTags(s.c.queue), s.c.live;
    match step {
      case NewFragment => AllocFragKeeps(p, f, tags, live);
      case FillFragment(n, piece) => FillFragKeeps(p, f, tags, live, n, piece);
      case CloseFragment(n) => CloseFragKeeps(p, f, tags, live, n);
      case TakeFragment(n) => TakeFragKeeps(p, f, tags, live, n);
      case MakeCopy(n, junk) => MakePackedKeeps(p, f, tags, live, n, junk);
      case PackFragment(n) => PackFragKeeps(p, f, tags, live, n);
      case Release(n) => ReleaseFragKeeps(p, f, tags, live, n);
      case EvictBuf(home, n) => EvictKeeps(p, f, tags, live, home, n);
      case EvictCopy(n) => EvictPackedKeeps(p, f, tags, live, n);
    }
    ExtentsSame(s, Next(p, s, step));
  }

  lemma ExtentsSame(s: State, t: State)
    requires ExtInv(s) && t == s.(fr := t.fr)
    ensures ExtInv(t)
  {
    hide FilesApart, FilesBelow, FilesLive, AllBelow, Leftovers, FileLive, Length;
  }

  lemma GetStepKeeps(p: Params, s: State, step: Step)
    requires ParamsOk(p) && PipeInv(p, s) && CanStep(p, s, step) && IsGetStep(step)
    ensures PipeInv(p, Next(p, s, step))
  {
    hide Inv, FragInv, FragTags, ParamsOk, ExtInv, CanGet, CanFinishWait;
    hide StartGet, FinishWait, LookPacked, ReadRow, FillGet, EndGet;
    var f, tags, live := s.fr, FragTags(s.c.queue), s.c.live;
    match step {
    case GetStart(t, n, home, junk) =>
      if n in f.main || n in f.reserve {
        StartGetFinds(p, f, tags, live, t, n, home, junk);
      } else {
        StartGetMakes(p, f, tags, live, t, n, home, junk);
      }
    case GetWaited(t) => FinishWaitKeeps(p, f, tags, live, t);
    case GetLook(t) => LookPackedKeeps(p, f, tags, live, t);
    case GetRow(t) => ReadRowKeeps(p, f, tags, live, t);
    case GetFill(t) =>
      FragsWritten(s.c);
      FillGetKeeps(p, f, tags, live, s.c.disk, t);
    case GetEnd(t) => EndGetKeeps(p, f, tags, live, t);
    }
    ExtentsSame(s, Next(p, s, step));
  }

  // ---------- main's steps on files ----------

  lemma {:induction false} LengthPrefix(a: seq<seq<byte>>, b: seq<seq<byte>>, k: nat)
    requires k <= |a| && a <= b
    ensures Length(a, k) == Length(b, k)
  {
    if k > 0 {
      LengthPrefix(a, b, k - 1);
    }
  }

  lemma {:induction false} LengthMonotone(a: seq<seq<byte>>, j: nat, k: nat)
    requires j <= k <= |a|
    ensures Length(a, j) <= Length(a, k)
    decreases k
  {
    if j < k {
      LengthMonotone(a, j, k - 1);
    }
  }

  lemma BeginKeeps(p: Params, s: State)
    requires PipeInv(p, s) && CanStep(p, s, Begin)
    ensures PipeInv(p, Next(p, s, Begin))
  {
    hide FragInv, FileLive;
    var t, f := Next(p, s, Begin), File(s.bytes, []);
    assert FileLive(t.c.live, f) by { NoBlocksLive(t.c.live, s.bytes); }
    assert Regions(s.c.live);
    hide Inv;
    forall a | a in t.c.live
      ensures a < f.start && a + |t.c.live[a].data| <= f.start
    {
    }
  }

  lemma NoBlocksLive(live: map<int, Extent>, start: int)
    ensures FileLive(live, File(start, []))
  {
  }

  lemma CommitKeeps(p: Params, s: State)
    requires PipeInv(p, s) && CanStep(p, s, Commit)
    ensures PipeInv(p, Next(p, s, Commit))
  {
    hide FragInv, FileLive, Inv, Length;
    var t, f := Next(p, s, Commit), s.cur.value;
    forall i | 0 <= i < |t.files|
      ensures FileLive(t.c.live, t.files[i]) && End(t.files[i]) <= t.bytes
    {
      if i < |s.files| {
        assert t.files[i] == s.files[i];
      }
    }
    forall i, j | 0 <= i < j < |t.files|
      ensures End(t.files[i]) <= t.files[j].start || End(t.files[j]) <= t.files[i].start
    {
      if j < |s.files| {
        assert t.files[i] == s.files[i] && t.files[j] == s.files[j];
      } else {
        assert End(s.files[i]) <= f.start;
      }
    }
  }

  /** The next block of the file goes right behind the others. */
  lemma PlaceFileLive(live: map<int, Extent>, f: File, data: seq<byte>, addr: int)
    requires FileLive(live, f) && addr == End(f) && addr !in live
    ensures var g := File(f.start, f.blocks + [data]);
            FileLive(live[addr := FileBlock(data)], g) && End(g) == addr + |data|
  {
    var g := File(f.start, f.blocks + [data]);
    var live' := live[addr := FileBlock(data)];
    LengthPrefix(f.blocks, g.blocks, |f.blocks|);
    forall k | 0 <= k < |g.blocks|
      ensures BlockLive(live', g, k)
    {
      if k < |f.blocks| {
        LengthPrefix(f.blocks, g.blocks, k);
        assert BlockLive(live, f, k);
      }
    }
  }

  lemma FileLiveGrows(live: map<int, Extent>, live': map<int, Extent>, f: File)
    requires FileLive(live, f) && Grown(live, live')
    ensures FileLive(live', f)
  {
    forall k | 0 <= k < |f.blocks|
      ensures BlockLive(live', f, k)
    {
      assert BlockLive(live, f, k);
    }
  }

  lemma FragInvGrows(p: Params, f: Frags, tags: seq<nat>, live: map<int, Extent>, live': map<int, Extent>)
    requires FragInv(p, f, tags, live)
    requires forall a :: a in live && live[a].FragBlock? ==> a in live' && live'[a] == live[a]
    ensures FragInv(p, f, tags, live')
  {
    hide Mangle, Word;
    forall n | n in f.stage
      ensures FragmentOk(p, f, tags, live', n)
    {
      assert FragmentOk(p, f, tags, live, n);
    }
  }

  lemma PlaceBlockKeeps(p: Params, s: State, id: nat, hold: bool)
    requires PipeInv(p, s) && CanStep(p, s, PlaceBlock(id, hold))
    ensures PipeInv(p, DoPlaceBlock(s, id, hold))
  {
    hide FragInv, FileLive, Inv, Length, FragTags;
    var t, f, data := DoPlaceBlock(s, id, hold), s.cur.value, s.c.bufs[id].data;
    assert s.bytes !in s.c.live by { LiveNonEmpty(s.c); }
    assert CanPlace(s.c, id, s.bytes, hold);
    PlaceKeeps(s.c, id, s.bytes, hold);
    PlaceFileLive(s.c.live, f, data, s.bytes);
    FragTagsSnoc(s.c.queue, Item(s.bytes, data, Block(id)));
    assert FragTags(t.c.queue) == FragTags(s.c.queue);
    FragInvGrows(p, s.fr, FragTags(s.c.queue), s.c.live, t.c.live);
    PlaceExtents(s, id, hold);
  }

  lemma LiveNonEmpty(c: Cache)
    requires Inv(c)
    ensures forall a :: a in c.live ==> c.live[a].data != []
  {
  }

  lemma PlaceExtents(s: State, id: nat, hold: bool)
    requires Inv(s.c) && ExtInv(s) && s.cur.Some? && id in s.c.bufs && id in s.c.owned && s.bytes !in s.c.live &&
             s.c.bufs[id].data != []
    requires var t := DoPlaceBlock(s, id, hold);
             FileLive(t.c.live, t.cur.value) && End(t.cur.value) == t.bytes
    ensures ExtInv(DoPlaceBlock(s, id, hold))
  {
    hide FileLive, Inv, Length;
    var t, f := DoPlaceBlock(s, id, hold), s.cur.value;
    LengthMonotone(f.blocks, 0, |f.blocks|);
    assert f.start <= s.bytes by { StartBelow(f); }
    forall i | 0 <= i < |t.files|
      ensures FileLive(t.c.live, t.files[i]) && End(t.files[i]) <= t.bytes
    {
      FileLiveGrows(s.c.live, t.c.live, s.files[i]);
    }
    forall h | h in t.c.held
      ensures h in t.c.bufs && IsBlock(t.c, t.c.bufs[h].index) && f.start <= t.c.bufs[h].index < t.bytes
    {
      if h in s.c.held {
        HeldBuf(s.c, h);
      }
    }
  }

  lemma StartBelow(f: File)
    ensures f.start <= End(f)
  {
    LengthMonotone(f.blocks, 0, |f.blocks|);
  }

  lemma DiscardKeeps(p: Params, s: State)
    requires PipeInv(p, s) && CanStep(p, s, Discard)
    ensures PipeInv(p, DoDiscard(s))
  {
    hide FragInv, FileLive, Inv, Length, FragTags;
    var t, start := DoDiscard(s), s.cur.value.start;
    ForgetKeeps(s.c, Above(s.c.live, start));
    LiveNonEmpty(s.c);
    FragInvGrows(p, s.fr, FragTags(s.c.queue), s.c.live, t.c.live);
    forall i | 0 <= i < |t.files|
      ensures FileLive(t.c.live, t.files[i])
    {
      FileLiveBelow(s.c.live, t.c.live, s.files[i], start);
    }
    assert Leftovers(t.c);
  }

  lemma FileLiveBelow(live: map<int, Extent>, live': map<int, Extent>, f: File, start: int)
    requires FileLive(live, f) && End(f) <= start && (forall a :: a in live ==> live[a].data != [])
    requires forall a :: a in live && a < start ==> a in live' && live'[a] == live[a]
    ensures FileLive(live', f)
  {
    forall k | 0 <= k < |f.blocks|
      ensures BlockLive(live', f, k)
    {
      assert BlockLive(live, f, k);
      LengthMonotone(f.blocks, k + 1, |f.blocks|);
    }
  }

  // ---------- placing fragments ----------

  /** A fragment placed while no file is being written. */
  lemma FragPlaced(s: State, n: nat, data: seq<byte>)
    requires Inv(s.c) && ExtInv(s) && s.cur.None? && data != []
    ensures s.bytes !in s.c.live
    ensures var c := QueueFrag(s.c, n, s.bytes, data);
            Inv(c) && FragTags(c.queue) == FragTags(s.c.queue) + [n] &&
            ExtInv(s.(c := c, bytes := s.bytes + |data|))
  {
    hide FileLive, Inv, Length, FragTags;
    LiveNonEmpty(s.c);
    var c := QueueFrag(s.c, n, s.bytes, data);
    QueueFragKeeps(s.c, n, s.bytes, data);
    FragTagsSnoc(s.c.queue, Item(s.bytes, data, Frag(n)));
    forall i | 0 <= i < |s.files|
      ensures FileLive(c.live, s.files[i])
    {
      FileLiveGrows(s.c.live, c.live, s.files[i]);
    }
  }

  /** While a file is being written fragments are locked. */
  lemma PlaceFragmentKeeps(p: Params, s: State, n: nat)
    requires PipeInv(p, s) && CanStep(p, s, PlaceFragment(n))
    ensures PipeInv(p, DoPlaceFragment(s, n))
  {
    hide FragInv, FileLive, Inv, Length, FragTags, PlaceFrag, PendFrag;
    var tags := FragTags(s.c.queue);
    if s.locked {
      PendFragKeeps(p, s.fr, tags, s.c.live, n);
    } else {
      assert s.bytes !in s.c.live by { LiveNonEmpty(s.c); }
      PlaceFragKeeps(p, s.fr, tags, s.c.live, n, s.bytes);
      FragPlaced(s, n, s.fr.packed[n].data);
    }
  }

  lemma UnlockOneKeeps(p: Params, s: State, n: nat)
    requires PipeInv(p, s) && CanStep(p, s, UnlockOne(n))
    ensures PipeInv(p, DoUnlockOne(s, n))
  {
    hide FragInv, FileLive, Inv, Length, FragTags, UnlockFrag;
    assert s.bytes !in s.c.live by { LiveNonEmpty(s.c); }
    UnlockFragKeeps(p, s.fr, FragTags(s.c.queue), s.c.live, n, s.bytes);
    FragPlaced(s, n, s.fr.packed[n].data);
  }

  // ---------- every run ----------

  /** Every step of every thread keeps the invariant. */
  lemma NextKeeps(p: Params, s: State, step: Step)
    requires ParamsOk(p) && PipeInv(p, s) && CanStep(p, s, step)
    ensures PipeInv(p, Next(p, s, step))
  {
    hide FragInv, Inv, ExtInv, ParamsOk, DoPlaceBlock, DoDiscard, DoWrite, DoPlaceFragment, DoUnlockOne, FragTags;
    if IsCacheStep(step) {
      CacheStepKeeps(p, s, step);
    } else if IsFragStep(step) {
      FragStepKeeps(p, s, step);
    } else if IsGetStep(step) {
      GetStepKeeps(p, s, step);
    } else {
      match step
      case WriteNext => WriteNextKeeps(p, s);
      case Begin => BeginKeeps(p, s);
      case PlaceBlock(id, hold) => PlaceBlockKeeps(p, s, id, hold);
      case Commit => CommitKeeps(p, s);
      case Discard => DiscardKeeps(p, s);
      case UnlockOne(n) => UnlockOneKeeps(p, s, n);
      case UnlockDone => UnlockDoneKeeps(p, s);
      case PlaceFragment(n) => PlaceFragmentKeeps(p, s, n);
    }
  }

  lemma UnlockDoneKeeps(p: Params, s: State)
    requires PipeInv(p, s) && s.cur.None?
    ensures PipeInv(p, s.(locked := false))
  {
  }

  /** The guards that name a buffer or a table entry never hold a thread up. */
  lemma NeverStuck(p: Params, s: State, n: nat)
    requires PipeInv(p, s) && n in s.fr.stage
    ensures s.fr.stage[n].Made? ==> CanStep(p, s, PackFragment(n))
    ensures s.fr.stage[n].Filled? ==> CanStep(p, s, PlaceFragment(n))
    ensures s.fr.stage[n].Pending? && s.cur.None? ==> CanStep(p, s, UnlockOne(n))
  {
    hide Inv, ExtInv, FragTags, TailsOk, GetsOk, BufsOk, StagesOk, Mangle, Word, Tally, Keys;
    FragmentHas(p, s.fr, FragTags(s.c.queue), s.c.live, n);
  }

  lemma NeverStuckGetting(p: Params, s: State, t: nat)
    requires PipeInv(p, s) && t in s.fr.gets
    ensures s.fr.gets[t].Looked? ==> CanStep(p, s, GetRow(t))
    ensures s.fr.gets[t].HasRow? ==> CanStep(p, s, GetFill(t))
    ensures s.fr.gets[t].Got? ==> CanStep(p, s, GetEnd(t))
  {
    hide Inv, ExtInv, FragTags, TailsOk, GetsOk, BufsOk, StagesOk, Mangle, Word, Tally, Keys;
    GetHas(s.fr, FragTags(s.c.queue), t);
    FragmentHas(p, s.fr, FragTags(s.c.queue), s.c.live, s.fr.gets[t].n);
  }

  ghost predicate Legal(p: Params, s: State, steps: seq<Step>)
    decreases |steps|
  {
    steps == [] || (CanStep(p, s, steps[0]) && Legal(p, Next(p, s, steps[0]), steps[1..]))
  }

  ghost function After(p: Params, s: State, steps: seq<Step>): State
    requires Legal(p, s, steps)
    decreases |steps|
  {
    if steps == [] then s else After(p, Next(p, s, steps[0]), steps[1..])
  }

  /** A new output file, or one that is being appended to: all that is in use is on the
      disk and nothing is in flight. */
  ghost predicate Init(p: Params, s: State)
  {
    EmptyCache(s.c) && Regions(s.c.live) && (forall a :: a in s.c.live ==> OnDisk(s.c.disk, a, s.c.live[a].data)) &&
    AllBelow(s.c.live, s.bytes) && FilesApart(s.files) && FilesBelow(s.files, s.bytes) &&
      FilesLive(s.c.live, s.files) &&
    s.cur.None? && AtRest(s.fr) && |p.before| == s.fr.count &&
      forall n :: n in s.fr.stage ==> FragmentOk(p, s.fr, [], s.c.live, n)
  }

  ghost predicate EmptyCache(c: Cache)
  {
    c.bufs == map[] && c.owned == {} && c.hashed == [] && c.free == [] && c.queue == [] && c.held == [] &&
    c.limbo == [] && c.pins == {} && c.missed == {}
  }

  ghost predicate AtRest(f: Frags)
  {
    f.main == map[] && f.reserve == map[] && f.packed == map[] && f.gets == map[] && f.outstanding == 0 && !f.failed &&
    (forall n: nat :: n in f.stage <==> n < f.count) && (forall n :: n in f.content ==> n < f.count) &&
    (forall n :: n in f.stage ==> f.stage[n].Placed?) && TailsOk(f)
  }

  lemma InitKeeps(p: Params, s: State)
    requires Init(p, s)
    ensures PipeInv(p, s)
  {
    assert Busy(s.fr) == {};
  }

  /** A new output file is such a start. */
  lemma FreshStart(p: Params, bytes: int)
    requires p.before == []
    ensures Init(p, NewOutput(bytes))
  {
  }

  ghost function NewOutput(bytes: int): State
  {
    State(Cache(map[], {}, [], [], [], [], [], {}, {}, (x: int) => None, map[]), bytes, false, None, [],
          Frags(0, map[], 0, map[], map[], map[], map[], map[], map[], [], false))
  }

  /** The invariant holds after every run. */
  lemma {:induction false} RunKeeps(p: Params, s: State, steps: seq<Step>)
    requires ParamsOk(p) && PipeInv(p, s) && Legal(p, s, steps)
    ensures PipeInv(p, After(p, s, steps))
    decreases |steps|
  {
    hide PipeInv, CanStep, Next, ParamsOk;
    if steps != [] {
      NextKeeps(p, s, steps[0]);
      RunKeeps(p, Next(p, s, steps[0]), steps[1..]);
    }
  }

  // ---------- addresses are used again ----------

  lemma RunStep(p: Params, s: State, step: Step, steps: seq<Step>) returns (r: seq<Step>)
    requires CanStep(p, s, step) && Legal(p, Next(p, s, step), steps)
    ensures Legal(p, s, r) && After(p, s, r) == After(p, Next(p, s, step), steps)
  {
    r := [step] + steps;
    assert r[1..] == steps;
    hide CanStep, Next;
  }

  lemma {:induction false} RunAppend(p: Params, s: State, a: seq<Step>, b: seq<Step>)
    requires Legal(p, s, a) && Legal(p, After(p, s, a), b)
    ensures Legal(p, s, a + b) && After(p, s, a + b) == After(p, After(p, s, a), b)
    decreases |a|
  {
    hide CanStep, Next;
    if a == [] {
      assert a + b == b;
    } else {
      assert (a + b)[1..] == a[1..] + b;
      RunAppend(p, Next(p, s, a[0]), a[1..], b);
    }
  }

  /** Nothing is in use, but a given-up block is still hashed under address 0. */
  ghost predicate StaleLeft(s: State)
  {
    s.cur.None? && s.bytes == 0 && s.c.hashed == [1] && s.c.bufs == map[1 := Buf(0, [7])] && s.c.held == [] &&
    s.c.owned == {} && s.c.pins == {} && s.c.missed == {} && s.c.live == map[]
  }

  ghost predicate OneHeld(s: State)
  {
    s.cur.Some? && s.cur.value.start == 0 && s.bytes == 1 && s.c.hashed == [1] && s.c.bufs == map[1 := Buf(0, [7])] &&
      s.c.held == [1] &&
    s.c.owned == {} && s.c.pins == {} && s.c.missed == {} && s.c.live == map[0 := FileBlock([7])]
  }

  lemma PlaceOne(p: Params) returns (steps: seq<Step>)
    ensures Legal(p, NewOutput(0), steps) && OneHeld(After(p, NewOutput(0), steps))
  {
    var s0 := NewOutput(0);
    var s1 := Next(p, s0, AllocBuf(1));
    var s2 := Next(p, s1, FillBuf(1, Buf(0, [7])));
    var s3 := Next(p, s2, Begin);
    var s4 := Next(p, s3, PlaceBlock(1, true));
    assert s4.c.hashed == [1] && s4.c.held == [1];
    steps := RunStep(p, s3, PlaceBlock(1, true), []);
    steps := RunStep(p, s2, Begin, steps);
    steps := RunStep(p, s1, FillBuf(1, Buf(0, [7])), steps);
    steps := RunStep(p, s0, AllocBuf(1), steps);
  }

  lemma GiveUp(p: Params, s: State) returns (steps: seq<Step>)
    requires OneHeld(s)
    ensures Legal(p, s, steps) && StaleLeft(After(p, s, steps))
  {
    var s1 := Next(p, s, Discard);
    assert s1.c.live == map[] && s1.c.held == [1];
    var s2 := Next(p, s1, DropNextHeld);
    assert StaleLeft(s2);
    steps := RunStep(p, s1, DropNextHeld, []);
    steps := RunStep(p, s, Discard, steps);
  }

  /** Two buffers are hashed under address 0, the stale one behind the live one. */
  ghost predicate Reused(c: Cache)
  {
    c.hashed == [2, 1] && c.bufs == map[1 := Buf(0, [7]), 2 := Buf(0, [8])] && c.live == map[0 := FileBlock([8])]
  }

  lemma PlaceAgain(p: Params, s: State) returns (steps: seq<Step>)
    requires StaleLeft(s)
    ensures Legal(p, s, steps) && Reused(After(p, s, steps).c)
  {
    var s1 := Next(p, s, AllocBuf(2));
    var s2 := Next(p, s1, FillBuf(2, Buf(0, [8])));
    var s3 := Next(p, s2, Begin);
    var s4 := Next(p, s3, PlaceBlock(2, true));
    assert s4.c.hashed == [2, 1];
    steps := RunStep(p, s3, PlaceBlock(2, true), []);
    steps := RunStep(p, s2, Begin, steps);
    steps := RunStep(p, s1, FillBuf(2, Buf(0, [8])), steps);
    steps := RunStep(p, s, AllocBuf(2), steps);
  }

  /** There is a run in which a block's address is used again while the buffer of the block
      that was given up is still hashed under it. */
  lemma AddressReused(p: Params) returns (steps: seq<Step>)
    ensures Legal(p, NewOutput(0), steps) && Reused(After(p, NewOutput(0), steps).c)
  {
    hide Legal, After, OneHeld, StaleLeft, Reused, NewOutput;
    steps := PlaceOne(p);
    var more := GiveUp(p, After(p, NewOutput(0), steps));
    RunAppend(p, NewOutput(0), steps, more);
    steps := steps + more;
    more := PlaceAgain(p, After(p, NewOutput(0), steps));
    RunAppend(p, NewOutput(0), steps, more);
    steps := steps + more;
  }

  // ---------- the theorems ----------

  ghost predicate Reachable(p: Params, s: State, steps: seq<Step>)
  {
    ParamsOk(p) && Init(p, s) && Legal(p, s, steps)
  }

  lemma Reached(p: Params, s: State, steps: seq<Step>)
    requires Reachable(p, s, steps)
    ensures PipeInv(p, After(p, s, steps))
  {
    hide PipeInv, Init, Legal, After, ParamsOk;
    InitKeeps(p, s);
    RunKeeps(p, s, steps);
  }

  /** The files main can compare with: the recorded ones and the one being written. */
  ghost predicate Known(s: State, f: File) { f in s.files || s.cur == Some(f) }

  lemma KnownLive(s: State, f: File)
    requires ExtInv(s) && Known(s, f)
    ensures FileLive(s.c.live, f)
  {
    hide FileLive, Length;
  }

  /** After every run, reading any block of a recorded or unfinished file from the cache,
      and from the disk on a miss, gives the block's compressed bytes, however often
      addresses have been given up and used again. */
  lemma EveryBlockReads(p: Params, s: State, steps: seq<Step>, f: File, k: nat)
    requires Reachable(p, s, steps) && Known(After(p, s, steps), f) && k < |f.blocks|
    ensures ReadBlock(After(p, s, steps).c, Address(f, k), |f.blocks[k]|) == Some(f.blocks[k])
  {
    hide Legal, Init, ParamsOk, Inv, FragInv, ExtInv, Known, ReadBlock, After;
    Reached(p, s, steps);
    var t := After(p, s, steps);
    KnownLive(t, f);
    assert BlockLive(t.c.live, f, k);
    BlockReads(t.c, Address(f, k));
  }

  /** The bytes main gets are also right when other threads run between its lookup and its
      use of the buffer, or between the failed lookup and the disk read. */
  lemma EveryLookupHolds(p: Params, s: State, steps: seq<Step>)
    requires Reachable(p, s, steps)
    ensures var c := After(p, s, steps).c;
            (forall y :: y in c.pins ==> y in c.bufs && IsBlock(c, c.bufs[y].index) &&
                                         c.bufs[y].data == c.live[c.bufs[y].index].data) &&
            forall a :: a in c.missed ==> IsBlock(c, a) && ReadDisk(c.disk, a, |c.live[a].data|) == Some(c.live[a].data)
  {
    hide Legal, Init, ParamsOk, FragInv, ExtInv, After, ReadDisk, Inv;
    Reached(p, s, steps);
    UsersRead(After(p, s, steps).c);
  }

  /** After every run no thread has failed to get a fragment back, and a fragment buffer
      it was given holds every tail end recorded in that fragment. */
  lemma EveryFragmentReturns(p: Params, s: State, steps: seq<Step>, t: nat, i: nat)
    requires Reachable(p, s, steps)
    ensures var f := After(p, s, steps).fr;
            !f.failed &&
            (t in f.gets && f.gets[t].Got? && i < |f.tails| && f.tails[i].n == f.gets[t].n ==>
               var g, x := f.gets[t], f.tails[i];
               g.n in CacheOf(f, g.home) && x.offset + |x.data| <= |CacheOf(f, g.home)[g.n].data| &&
               CacheOf(f, g.home)[g.n].data[x.offset..x.offset + |x.data|] == x.data)
  {
    hide Legal, Init, ParamsOk, Inv, ExtInv, After, Keys, StagesOk, BufsOk, GetsOk, TailsOk, Tally;
    Reached(p, s, steps);
    var z := After(p, s, steps);
    var f := z.fr;
    if t in f.gets && f.gets[t].Got? && i < |f.tails| && f.tails[i].n == f.gets[t].n {
      GotHoldsTails(p, f, FragTags(z.c.queue), z.c.live, t, i);
    }
  }

  lemma {:induction false} BlockBeside(live: map<int, Extent>, f: File, a: int, k: nat)
    requires FileLive(live, f) && Regions(live) && a in live && live[a].FragBlock? && k <= |f.blocks|
    ensures k > 0 ==> a + |live[a].data| <= f.start || Address(f, k) <= a
    decreases k
  {
    if k > 0 {
      BlockBeside(live, f, a, k - 1);
      assert BlockLive(live, f, k - 1);
      assert Address(f, k - 1) != a;
    }
  }

  /** No fragment lies within a file. */
  ghost predicate FragmentsBeside(live: map<int, Extent>, files: seq<File>)
  {
    forall a, i :: a in live && live[a].FragBlock? && 0 <= i < |files| && files[i].blocks != [] ==>
      a + |live[a].data| <= files[i].start || End(files[i]) <= a
  }

  /** After every run: each file's blocks lie end to end from its start, files do not
      overlap one another or any fragment, no two extents overlap, and all lie below
      `bytes`. */
  lemma ExtentsApart(p: Params, s: State, steps: seq<Step>)
    requires Reachable(p, s, steps)
    ensures var t := After(p, s, steps);
            FilesApart(t.files) && FilesBelow(t.files, t.bytes) && FilesLive(t.c.live, t.files) &&
            Regions(t.c.live) && AllBelow(t.c.live, t.bytes) && FragmentsBeside(t.c.live, t.files) &&
            (t.cur.Some? ==>
               FileLive(t.c.live, t.cur.value) && FilesBelow(t.files, t.cur.value.start) && End(t.cur.value) == t.bytes)
  {
    hide Legal, Init, ParamsOk, FragInv, After, FileLive, Length;
    Reached(p, s, steps);
    var t := After(p, s, steps);
    forall a, i | a in t.c.live && t.c.live[a].FragBlock? && 0 <= i < |t.files| && t.files[i].blocks != []
      ensures a + |t.c.live[a].data| <= t.files[i].start || End(t.files[i]) <= a
    {
      BlockBeside(t.c.live, t.files[i], a, |t.files[i].blocks|);
    }
  }

  /** fragments_outstanding is exact after every run. */
  lemma OutstandingExact(p: Params, s: State, steps: seq<Step>)
    requires Reachable(p, s, steps)
    ensures var f := After(p, s, steps).fr;
            f.outstanding == |Busy(f)|
  {
    hide Legal, Init, ParamsOk, Inv, ExtInv, After;
    Reached(p, s, steps);
  }

  ghost predicate Closed(f: Frags) { forall n :: n in f.stage ==> !f.stage[n].Open? }

  /** The end: all fragments closed, none outstanding, the writer's queue empty and no file
      unfinished. Then every file block and every fragment is on the disk at its recorded
      place. */
  lemma AllOnDisk(p: Params, s: State, steps: seq<Step>)
    requires Reachable(p, s, steps)
    requires var t := After(p, s, steps);
             t.cur.None? && t.c.queue == [] && t.c.held == [] && t.fr.outstanding == 0 && Closed(t.fr)
    ensures var t := After(p, s, steps);
            (forall i, k :: 0 <= i < |t.files| && 0 <= k < |t.files[i].blocks| ==>
               OnDisk(t.c.disk, Address(t.files[i], k), t.files[i].blocks[k])) &&
            forall n :: n in t.fr.stage ==> FragmentStored(p, t, n)
  {
    hide Legal, Init, ParamsOk, FragInv, After, ExtInv, Length, OnDisk, Inv, FragmentStored;
    Reached(p, s, steps);
    var t := After(p, s, steps);
    forall i, k | 0 <= i < |t.files| && 0 <= k < |t.files[i].blocks|
      ensures OnDisk(t.c.disk, Address(t.files[i], k), t.files[i].blocks[k])
    {
      KnownLive(t, t.files[i]);
      assert BlockLive(t.c.live, t.files[i], k);
      QuietIsWritten(t.c, Address(t.files[i], k));
    }
    forall n | n in t.fr.stage
      ensures FragmentStored(p, t, n)
    {
      FragmentAtEnd(p, t, n);
    }
  }

  /** The fragment table entry of n points at n's compressed bytes on the disk. */
  ghost predicate FragmentStored(p: Params, t: State, n: nat)
  {
    n in t.fr.table && n in t.fr.content &&
    OnDisk(t.c.disk, t.fr.table[n].start, Mangle(PackerOf(p, n), t.fr.content[n]).data) &&
    t.fr.table[n].word == Word(p, n, t.fr.content[n])
  }

  lemma FragmentAtEnd(p: Params, t: State, n: nat)
    requires PipeInv(p, t) && t.c.queue == [] && t.c.held == [] && t.fr.outstanding == 0 && n in t.fr.stage &&
             !t.fr.stage[n].Open?
    ensures FragmentStored(p, t, n)
  {
    hide Inv, ExtInv, OnDisk, Mangle, Word, StagesOk, BufsOk, GetsOk, TailsOk;
    NoneOutstanding(p, t.fr, FragTags(t.c.queue), t.c.live, n);
    QuietIsWritten(t.c, t.fr.table[n].start);
  }

  lemma QuietIsWritten(c: Cache, a: int)
    requires Inv(c) && c.queue == [] && c.held == [] && a in c.live
    ensures OnDisk(c.disk, a, c.live[a].data)
  {
    hide First, OnDisk;
    if c.live[a].FileBlock? {
      assert BlockOk(c, a);
    } else {
      assert FragOk(c, a);
    }
  }
}
