/** Appending to an image never touches what the image already holds: in every run of all
    threads the bytes below the place where writing begins, the recorded files and the rows
    of the fragment table stay as they were. */
module OldImage {
  import opened Bytes
  import opened Compressor
  import opened LeavingOrder
  import opened WriteCache
  import opened Fragments
  import opened Pipeline
  import opened Tables

  // ---------- what a run keeps ----------

  /** Nothing that is queued or kept back goes below `low`, and there the disk is as it was. */
  ghost predicate DiskKept(low: int, c0: Cache, c: Cache)
  {
    && (forall k :: 0 <= k < |c.queue| ==> c.queue[k].addr >= low)
    && (forall h :: h in c.held ==> h in c.bufs && c.bufs[h].index >= low)
    && (forall x :: x < low ==> c.disk(x) == c0.disk(x))
  }

  ghost predicate LiveKept(live0: map<int, Extent>, live: map<int, Extent>)
  {
    forall a :: a in live0 ==> a in live && live[a] == live0[a]
  }

  ghost predicate RowKept(f0: Frags, f: Frags, n: nat)
  {
    n in f.stage && f.stage[n].Placed? && SameAt(f0.table, f.table, n) && SameAt(f0.content, f.content, n)
  }

  ghost predicate FragsKept(f0: Frags, f: Frags)
  {
    f0.count <= f.count && f0.tails <= f.tails && forall n :: n in f0.stage ==> RowKept(f0, f, n)
  }

  ghost predicate OldKept(s0: State, s: State)
  {
    && s0.bytes <= s.bytes && (s.cur.Some? ==> s0.bytes <= s.cur.value.start) && s0.files <= s.files
    && DiskKept(s0.bytes, s0.c, s.c) && LiveKept(s0.c.live, s.c.live) && FragsKept(s0.fr, s.fr)
  }

  ghost predicate OldBelow(s0: State)
  {
    forall a :: a in s0.c.live ==> a < s0.bytes
  }

  // ---------- every step keeps it ----------

  /** Nothing is queued, kept back, written or given up. */
  ghost predicate Quiet(c: Cache, d: Cache)
  {
    && d.queue == c.queue && d.disk == c.disk && d.live == c.live
    && forall h :: h in d.held ==> h in c.held && h in c.bufs && h in d.bufs && d.bufs[h] == c.bufs[h]
  }

  lemma QuietKept(low: int, c0: Cache, c: Cache, d: Cache)
    requires DiskKept(low, c0, c) && Quiet(c, d)
    ensures DiskKept(low, c0, d)
  {
  }

  ghost predicate HeldApart(c: Cache)
  {
    forall h :: h in c.held ==> h in c.bufs && h !in c.owned
  }

  lemma HeldAreApart(c: Cache)
    requires Inv(c)
    ensures HeldApart(c)
  {
    hide Inv;
    forall h | h in c.held
      ensures h in c.bufs && h !in c.owned
    {
      HeldBuf(c, h);
    }
  }

  lemma QuietBufs(c: Cache, id: nat, buf: Buf)
    requires HeldApart(c)
    ensures CanAlloc(c, id) ==> Quiet(c, Alloc(c, id))
    ensures CanRecycle(c) ==> Quiet(c, Recycle(c))
    ensures CanFill(c, id) ==> Quiet(c, Fill(c, id, buf))
    ensures c.held != [] ==> Quiet(c, DropHeld(c))
  {
    hide Without;
  }

  lemma QuietUse(c: Cache, a: int, y: nat)
    requires HeldApart(c)
    ensures Newest(c, a).Some? ==> Quiet(c, Pin(c, a))
    ensures Quiet(c, Miss(c, a)) && Quiet(c, Unpin(c, y)) && Quiet(c, DiskRead(c, a))
  {
    hide Without, First;
  }

  lemma HeldQueued(low: int, c0: Cache, c: Cache)
    requires DiskKept(low, c0, c) && c.held != [] && c.held[0] in c.bufs
    ensures DiskKept(low, c0, QueueHeld(c)) && QueueHeld(c).live == c.live
  {
    assert c.held[0] in c.held;
  }

  lemma CutAbove(low: int, c0: Cache, c: Cache, size: int)
    requires DiskKept(low, c0, c) && low <= size
    ensures DiskKept(low, c0, Truncate(c, size)) && Truncate(c, size).live == c.live
  {
  }

  lemma CacheStepOld(p: Params, s0: State, s: State, step: Step)
    requires PipeInv(p, s) && CanStep(p, s, step) && IsCacheStep(step) && OldKept(s0, s)
    ensures OldKept(s0, Next(p, s, step))
  {
    hide Inv, ExtInv, FragInv, LiveKept, FragsKept, First, DiskKept, HeldApart, CanAlloc, CanFill, CanUnpin, Idle;
    hide Alloc, Recycle, Fill, QueueHeld, DropHeld, Truncate, Pin, Miss, Unpin, DiskRead, Newest;
    var low, c, d := s0.bytes, s.c, Next(p, s, step).c;
    HeldAreApart(c);
    match step {
      case AllocBuf(id) => QuietBufs(c, id, Buf(0, []));
      case RecycleBuf => QuietBufs(c, 0, Buf(0, []));
      case FillBuf(id, buf) => QuietBufs(c, id, buf);
      case DropNextHeld => QuietBufs(c, 0, Buf(0, []));
      case Lookup(a) => QuietUse(c, a, 0);
      case PutBack(y) => QuietUse(c, 0, y);
      case ReadMissed(a) => QuietUse(c, a, 0);
      case QueueNextHeld => HeldQueued(low, s0.c, c);
      case TruncateOutput => CutAbove(low, s0.c, c, s.bytes);
    }
    if !step.QueueNextHeld? && !step.TruncateOutput? {
      QuietKept(low, s0.c, c, d);
    }
  }

  /** Fragments that have their place keep it. */
  ghost predicate PlacedStay(f: Frags, g: Frags)
  {
    f.count <= g.count && f.tails <= g.tails && forall n :: n in f.stage && f.stage[n].Placed? ==> RowKept(f, g, n)
  }

  ghost predicate RowsSame(f: Frags, g: Frags)
  {
    g.count == f.count && g.tails == f.tails && g.stage == f.stage && g.table == f.table && g.content == f.content
  }

  lemma RowsSameStay(f: Frags, g: Frags)
    requires RowsSame(f, g)
    ensures PlacedStay(f, g)
  {
  }

  lemma BufSame(f: Frags, home: Home, n: nat, b: FragBuf, gets: map<nat, Get>, packed: map<nat, PackBuf>)
    ensures RowsSame(f, SetBuf(f, home, n, b).(gets := gets))
    ensures RowsSame(f, SetBuf(f, home, n, b).(gets := gets).(packed := packed))
  {
  }

  lemma StartSame(f: Frags, t: nat, n: nat, home: Home, junk: seq<byte>)
    ensures RowsSame(f, StartGet(f, t, n, home, junk))
  {
    hide SetBuf, Hold, RowsSame;
    if n in f.main {
      BufSame(f, MainCache, n, Hold(f.main[n], t), f.gets[t := Waiting(n, MainCache)], f.packed);
    } else if n in f.reserve {
      BufSame(f, ReserveCache, n, Hold(f.reserve[n], t), f.gets[t := Waiting(n, ReserveCache)], f.packed);
    } else {
      BufSame(f, home, n, FragBuf(junk, {Thread(t)}, true), f.gets[t := Begun(n, home)], f.packed);
    }
  }

  lemma FillSame(p: Params, f: Frags, disk: Disk, t: nat)
    requires t in f.gets && f.gets[t].n in CacheOf(f, f.gets[t].home) && f.gets[t].HasRow?
    ensures RowsSame(f, FillGet(p, f, disk, t))
  {
    hide Recover, SetBuf, CacheOf, RowsSame;
    var g := f.gets[t];
    var b, gets := CacheOf(f, g.home)[g.n], f.gets[t := Got(g.n, g.home)];
    match Recover(p, f, disk, g)
    case None => FailSame(f);
    case Some(data) =>
      BufSame(f, g.home, g.n, b.(data := data, locked := false), gets, f.packed);
      if g.cached && g.n in f.packed {
        BufSame(f, g.home, g.n, b.(data := data, locked := false), gets,
                f.packed[g.n := f.packed[g.n].(holders := f.packed[g.n].holders - {Thread(t)})]);
      }
  }

  lemma FailSame(f: Frags)
    ensures RowsSame(f, f.(failed := true))
  {
  }

  lemma EndSame(f: Frags, t: nat)
    requires t in f.gets && f.gets[t].n in CacheOf(f, f.gets[t].home)
    ensures RowsSame(f, EndGet(f, t))
  {
    hide SetBuf, CacheOf, RowsSame;
    var g := f.gets[t];
    var b := CacheOf(f, g.home)[g.n];
    BufSame(f, g.home, g.n, b.(holders := b.holders - {Thread(t)}), f.gets - {t}, f.packed);
  }

  lemma WaitSame(f: Frags, t: nat)
    requires t in f.gets
    ensures RowsSame(f, FinishWait(f, t))
  {
  }

  lemma LookSame(f: Frags, t: nat)
    requires t in f.gets
    ensures RowsSame(f, LookPacked(f, t)) &&
            (f.gets[t].Looked? && f.gets[t].n in f.table ==> RowsSame(f, ReadRow(f, t)))
  {
  }

  lemma GetStepStays(p: Params, s: State, step: Step)
    requires CanStep(p, s, step) && IsGetStep(step)
    ensures Next(p, s, step) == s.(fr := Next(p, s, step).fr) && PlacedStay(s.fr, Next(p, s, step).fr)
  {
    hide PlacedStay, StartGet, FinishWait, LookPacked, ReadRow, FillGet, EndGet, RowsSame, CanGet;
    match step {
      case GetStart(t, n, home, junk) => StartSame(s.fr, t, n, home, junk);
      case GetLook(t) => LookSame(s.fr, t);
      case GetRow(t) => LookSame(s.fr, t);
      case GetWaited(t) => WaitSame(s.fr, t);
      case GetFill(t) => FillSame(p, s.fr, s.c.disk, t);
      case GetEnd(t) => EndSame(s.fr, t);
    }
    RowsSameStay(s.fr, Next(p, s, step).fr);
  }

  lemma FillsStay(p: Params, f: Frags, n: nat, piece: seq<byte>)
    requires n in f.stage && !f.stage[n].Placed?
    ensures CanFillFrag(p, f, n, piece) ==> PlacedStay(f, FillFrag(f, n, piece))
    ensures PlacedStay(f, CloseFrag(f, n)) && PlacedStay(f, TakeFrag(f, n)) && PlacedStay(f, MakePacked(f, n, piece))
    ensures n in f.main && n in f.packed ==> PlacedStay(f, PackFrag(p, f, n))
  {
    hide Mangle, DataWord;
  }

  lemma NewStays(f: Frags)
    requires f.count !in f.stage
    ensures PlacedStay(f, AllocFrag(f))
  {
  }

  lemma ReleaseSame(f: Frags, home: Home, n: nat)
    ensures n in f.main ==> RowsSame(f, ReleaseFrag(f, n))
    ensures RowsSame(f, Evict(f, home, n)) && RowsSame(f, EvictPacked(f, n))
  {
  }

  lemma FragStepStays(p: Params, s: State, step: Step)
    requires CanStep(p, s, step) && IsFragStep(step) && Keys(s.fr, FragTags(s.c.queue))
    ensures Next(p, s, step) == s.(fr := Next(p, s, step).fr) && PlacedStay(s.fr, Next(p, s, step).fr)
  {
    hide PlacedStay, RowsSame, AllocFrag, FillFrag, CloseFrag, TakeFrag, MakePacked, PackFrag, ReleaseFrag, Evict,
      EvictPacked;
    hide CanEvict, CanEvictPacked, FragTags, NoDup;
    var f := s.fr;
    match step {
      case NewFragment =>
        assert f.count !in f.stage;
        NewStays(f);
      case FillFragment(n, piece) => FillsStay(p, f, n, piece);
      case CloseFragment(n) => FillsStay(p, f, n, []);
      case TakeFragment(n) => FillsStay(p, f, n, []);
      case MakeCopy(n, junk) => FillsStay(p, f, n, junk);
      case PackFragment(n) => FillsStay(p, f, n, []);
      case Release(n) =>
        ReleaseSame(f, MainCache, n);
        RowsSameStay(f, Next(p, s, step).fr);
      case EvictBuf(home, n) =>
        ReleaseSame(f, home, n);
        RowsSameStay(f, Next(p, s, step).fr);
      case EvictCopy(n) =>
        ReleaseSame(f, MainCache, n);
        RowsSameStay(f, Next(p, s, step).fr);
    }
  }

  lemma StayKept(s0: State, s: State, t: State)
    requires OldKept(s0, s) && t == s.(fr := t.fr) && PlacedStay(s.fr, t.fr)
    ensures OldKept(s0, t)
  {
    hide DiskKept, LiveKept;
    forall n | n in s0.fr.stage
      ensures RowKept(s0.fr, t.fr, n)
    {
      assert RowKept(s0.fr, s.fr, n) && RowKept(s.fr, t.fr, n);
    }
  }

  /** A new extent goes beyond the old ones. */
  lemma ExtentOld(s0: State, s: State, x: Extent)
    requires OldKept(s0, s) && OldBelow(s0)
    ensures LiveKept(s0.c.live, s.c.live[s.bytes := x])
  {
    hide DiskKept, FragsKept;
  }

  lemma WriteOld(p: Params, s0: State, s: State)
    requires OldKept(s0, s) && CanStep(p, s, WriteNext)
    ensures OldKept(s0, Next(p, s, WriteNext))
  {
    hide LiveKept, FragsKept;
    var t := Next(p, s, WriteNext);
    assert PlacedStay(s.fr, t.fr);
    assert s.c.queue[0].addr >= s0.bytes;
    assert DiskKept(s0.bytes, s0.c, t.c);
    StayKept(s0, s, s.(fr := t.fr));
  }

  lemma BlockOld(p: Params, s0: State, s: State, id: nat, hold: bool)
    requires PipeInv(p, s) && OldKept(s0, s) && OldBelow(s0) && CanStep(p, s, PlaceBlock(id, hold))
    ensures OldKept(s0, Next(p, s, PlaceBlock(id, hold)))
  {
    hide Inv, ExtInv, FragInv, FragsKept, LiveKept, OldBelow;
    forall h | h in s.c.held
      ensures h !in s.c.owned
    {
      HeldBuf(s.c, h);
    }
    ExtentOld(s0, s, FileBlock(s.c.bufs[id].data));
  }

  lemma DiscardOld(p: Params, s0: State, s: State)
    requires OldKept(s0, s) && OldBelow(s0) && CanStep(p, s, Discard)
    ensures OldKept(s0, Next(p, s, Discard))
  {
    hide FragsKept;
  }

  lemma PlaceFragmentOld(p: Params, s0: State, s: State, n: nat)
    requires OldKept(s0, s) && OldBelow(s0) && CanStep(p, s, PlaceFragment(n))
    ensures OldKept(s0, Next(p, s, PlaceFragment(n)))
  {
    hide FragsKept, LiveKept, OldBelow;
    var t := Next(p, s, PlaceFragment(n));
    assert PlacedStay(s.fr, t.fr);
    StayKept(s0, s, s.(fr := t.fr));
    ExtentOld(s0, s, FragBlock(s.fr.packed[n].data, n));
  }

  lemma UnlockOld(p: Params, s0: State, s: State, n: nat)
    requires OldKept(s0, s) && OldBelow(s0) && CanStep(p, s, UnlockOne(n))
    ensures OldKept(s0, Next(p, s, UnlockOne(n)))
  {
    hide FragsKept, LiveKept, OldBelow;
    var t := Next(p, s, UnlockOne(n));
    assert PlacedStay(s.fr, t.fr);
    StayKept(s0, s, s.(fr := t.fr));
    ExtentOld(s0, s, FragBlock(s.fr.packed[n].data, n));
  }

  lemma MarkOld(p: Params, s0: State, s: State, step: Step)
    requires OldKept(s0, s) && CanStep(p, s, step) && (step.Begin? || step.Commit? || step.UnlockDone?)
    ensures OldKept(s0, Next(p, s, step))
  {
    hide DiskKept, LiveKept, FragsKept;
  }

  lemma StepOld(p: Params, s0: State, s: State, step: Step)
    requires PipeInv(p, s) && CanStep(p, s, step) && OldKept(s0, s) && OldBelow(s0)
    ensures OldKept(s0, Next(p, s, step))
  {
    hide OldKept, OldBelow, Next, CanStep, Inv, ExtInv, PlacedStay, Keys, StagesOk, BufsOk, GetsOk, TailsOk, Tally;
    if IsCacheStep(step) {
      CacheStepOld(p, s0, s, step);
    } else if IsFragStep(step) {
      FragStepStays(p, s, step);
      StayKept(s0, s, Next(p, s, step));
    } else if IsGetStep(step) {
      GetStepStays(p, s, step);
      StayKept(s0, s, Next(p, s, step));
    } else {
      match step
      case WriteNext => WriteOld(p, s0, s);
      case PlaceBlock(id, hold) => BlockOld(p, s0, s, id, hold);
      case Discard => DiscardOld(p, s0, s);
      case PlaceFragment(n) => PlaceFragmentOld(p, s0, s, n);
      case UnlockOne(n) => UnlockOld(p, s0, s, n);
      case Begin => MarkOld(p, s0, s, step);
      case Commit => MarkOld(p, s0, s, step);
      case UnlockDone => MarkOld(p, s0, s, step);
    }
  }

  lemma {:induction false} RunOld(p: Params, s0: State, s: State, steps: seq<Step>)
    requires ParamsOk(p) && PipeInv(p, s) && Legal(p, s, steps) && OldKept(s0, s) && OldBelow(s0)
    ensures OldKept(s0, After(p, s, steps))
    decreases |steps|
  {
    hide PipeInv, CanStep, Next, ParamsOk, OldKept, OldBelow;
    if steps != [] {
      NextKeeps(p, s, steps[0]);
      StepOld(p, s0, s, steps[0]);
      RunOld(p, s0, Next(p, s, steps[0]), steps[1..]);
    }
  }

  lemma StartOld(p: Params, s: State)
    requires Init(p, s)
    ensures OldKept(s, s) && OldBelow(s)
  {
    forall n | n in s.fr.stage
      ensures RowKept(s.fr, s.fr, n)
    {
      assert FragmentOk(p, s.fr, [], s.c.live, n);
    }
  }

  /** After every run from an image that is appended to: the bytes below the place where
      writing began are the old ones, every extent of the old image is still in use and on
      the disk, the recorded files and tails are there, and the rows of the old fragments
      are unchanged. */
  lemma OldImageKept(p: Params, s: State, steps: seq<Step>)
    requires Reachable(p, s, steps)
    ensures var t := After(p, s, steps);
            && (forall x :: x < s.bytes ==> t.c.disk(x) == s.c.disk(x))
            && (forall a :: a in s.c.live ==>
                 a in t.c.live && t.c.live[a] == s.c.live[a] && OnDisk(t.c.disk, a, s.c.live[a].data))
            && s.files <= t.files && s.fr.tails <= t.fr.tails
            && forall n: nat :: n < s.fr.count ==> n in s.fr.table && n in t.fr.table && t.fr.table[n] == s.fr.table[n]
  {
    hide Legal, After, PipeInv, ParamsOk, Regions, FilesLive, FilesApart, FilesBelow;
    assert ParamsOk(p) && Init(p, s) && Legal(p, s, steps);
    InitKeeps(p, s);
    StartOld(p, s);
    RunOld(p, s, s, steps);
    var t := After(p, s, steps);
    forall n: nat | n < s.fr.count
      ensures n in s.fr.table && n in t.fr.table && t.fr.table[n] == s.fr.table[n]
    {
      assert n in s.fr.stage;
      assert FragmentOk(p, s.fr, [], s.c.live, n);
      assert RowKept(s.fr, t.fr, n);
    }
    forall a | a in s.c.live
      ensures OnDisk(t.c.disk, a, s.c.live[a].data)
    {
      assert OnDisk(s.c.disk, a, s.c.live[a].data) && a + |s.c.live[a].data| <= s.bytes;
    }
  }

  // ---------- the fragment table ----------

  function EncodeRow(r: Row): (s: seq<byte>)
    ensures |s| == 16
  {
    PutLe(r.start % 0x1_0000_0000_0000_0000, 8) + PutLe(r.word, 4) + PutLe(0, 4)
  }

  function EncodeRows(table: map<nat, Row>, n: nat): seq<seq<byte>>
    requires forall i: nat :: i < n ==> i in table
  {
    seq(n, i requires 0 <= i < n => EncodeRow(table[i]))
  }

  /** Entry i as read_fragment_table leaves it. */
  function FragmentRow(s: seq<byte>, i: nat): Option<Row>
  {
    if 16 * (i + 1) <= |s| then
      var row := RowAt(s, 16, i);
      Some(Row(GetLe(row[..8]), GetLe(row[8..12])))
    else None
  }

  lemma RowDecodes(r: Row)
    requires 0 <= r.start < 0x1_0000_0000_0000_0000 && r.word < 0x1_0000_0000
    ensures GetLe(EncodeRow(r)[..8]) == r.start && GetLe(EncodeRow(r)[8..12]) == r.word
  {
    hide PutLe, GetLe;
    Spans();
    LeRoundTrip(r.start, 8);
    LeRoundTrip(r.word, 4);
    var a, b, c := PutLe(r.start, 8), PutLe(r.word, 4), PutLe(0, 4);
    assert EncodeRow(r) == a + b + c;
    assert (a + b + c)[..8] == a && (a + b + c)[8..12] == b;
  }

  /** write_fragment_table for the first n fragments. */
  method WriteFragmentTable(p: Packer, image0: seq<byte>, table: map<nat, Row>,
                            n: nat)
    returns (image: seq<byte>, start: nat)
    requires forall i: nat :: i < n ==> i in table
    ensures image == image0 + TableBytes(p, |image0|, Flatten(EncodeRows(table, n)), [])
    ensures start == TableStart(p, |image0|, Flatten(EncodeRows(table, n)))
  {
    hide TableBytes, TableStart, EncodeRow;
    var data := [];
    for i := 0 to n
      invariant data == Flatten(EncodeRows(table, i))
    {
      data := data + EncodeRow(table[i]);
      var rows := EncodeRows(table, i + 1);
      assert rows[..i] == EncodeRows(table, i);
    }
    image, start := GenericWriteTable(p, image0, data, []);
  }

  /** Writing the first rows after any run writes the old rows. */
  lemma RowsUnchanged(p: Params, s: State, steps: seq<Step>)
    requires Reachable(p, s, steps)
    ensures forall i: nat :: i < s.fr.count ==> i in s.fr.table && i in After(p, s, steps).fr.table
    ensures EncodeRows(After(p, s, steps).fr.table, s.fr.count) == EncodeRows(s.fr.table, s.fr.count)
  {
    hide Reachable, After, Legal, OnDisk, EncodeRow;
    assert Legal(p, s, steps) by { Steps(p, s, steps); }
    OldImageKept(p, s, steps);
  }

  lemma Steps(p: Params, s: State, steps: seq<Step>)
    requires Reachable(p, s, steps)
    ensures Legal(p, s, steps)
  {
  }

  /** A fragment table that has been written reads back row by row. */
  lemma RowsComeBack(p: Packer, image: seq<byte>, base: nat, table: map<nat, Row>, n: nat, i: nat)
    requires Lossless(p.codec) && i < n && |image| < Span(8) && forall k: nat :: k < n ==> k in table
    requires 0 <= table[i].start < 0x1_0000_0000_0000_0000 && table[i].word < 0x1_0000_0000
    requires Holds(image, base, TableBytes(p, base, Flatten(EncodeRows(table, n)), []))
    ensures var found := ReadIndexed(p.codec, image, TableStart(p, base, Flatten(EncodeRows(table, n))), 16 * n);
            found.Some? && FragmentRow(found.value, i) == Some(table[i])
  {
    hide TableBytes, TableStart, ReadIndexed, Lossless, RowAt, EncodeRow;
    var rows := EncodeRows(table, n);
    RowsSize(rows, 16);
    RowBack(rows, 16, i);
    RowDecodes(table[i]);
    TableReads(p, image, base, Flatten(rows), []);
  }
}
