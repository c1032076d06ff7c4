/** The block-list meta index of the kernel reader: eight slots of up to 31 checkpoints
    that shorten the prefix sum over a file's compressed block sizes. Slots are shared by
    all readers and guarded by a lock flag; a reader sleeps in metadata reads while it
    owns a slot. The environment `env` stands for everything other readers do between two
    steps of this one. */
module MetaIndex {
  import opened Bytes
  import opened Compressor
  import opened Metadata
  import opened MetaCursor

  const META_INDEXES: nat := 2048
  const META_ENTRIES: nat := 31
  const META_NUMBER: nat := 8
  const META_SLOTS: nat := 4
  const READ_WORDS: nat := 64

  // ---------- block lists ----------

  /** What the kernel's inode knows of a file: its number, its size in whole blocks,
      where its data begins and the cursor of its block list. */
  datatype Inode = Inode(number: nat, fileBlocks: nat, start: nat, list: Ref)

  /** A file with the block list its inode refers to. */
  datatype File = File(inode: Inode, words: seq<nat>, listAt: nat)

  function PutInts(words: seq<nat>): (s: seq<byte>)
    ensures |s| == 4 * |words|
  {
    if words == [] then [] else PutInts(words[..|words| - 1]) + PutLe(words[|words| - 1], 4)
  }

  function GetInts(s: seq<byte>, n: nat): (words: seq<nat>)
    requires 4 * n <= |s|
    ensures |words| == n
  {
    if n == 0 then [] else GetInts(s, n - 1) + [GetLe(s[4 * (n - 1)..4 * n])]
  }

  /** The data bytes taken by the first n blocks. */
  function SumSizes(words: seq<nat>, n: nat): nat
    requires n <= |words|
  {
    if n == 0 then 0 else SumSizes(words, n - 1) + DataWordSize(words[n - 1])
  }

  lemma {:induction false} IntAt(words: seq<nat>, i: nat)
    requires i < |words|
    ensures PutInts(words)[4 * i..4 * i + 4] == PutLe(words[i], 4)
    decreases |words|
  {
    hide PutLe;
    var n := |words| - 1;
    var front, last := PutInts(words[..n]), PutLe(words[n], 4);
    if i < n {
      IntAt(words[..n], i);
      assert (front + last)[4 * i..4 * i + 4] == front[4 * i..4 * i + 4];
    } else {
      assert (front + last)[4 * n..4 * n + 4] == last;
    }
  }

  ghost predicate Words32(words: seq<nat>)
  {
    forall i :: 0 <= i < |words| ==> words[i] < 0x1_0000_0000
  }

  lemma {:induction false} IntsBack(words: seq<nat>, w: nat, n: nat, s: seq<byte>)
    requires Words32(words) && w + n <= |words| && 4 * n <= |s|
    requires forall j :: 0 <= j < 4 * n ==> s[j] == PutInts(words)[4 * w + j]
    ensures GetInts(s, n) == words[w..w + n]
    decreases n
  {
    hide PutInts, PutLe, GetLe;
    if n > 0 {
      IntsBack(words, w, n - 1, s);
      IntAt(words, w + n - 1);
      Spans();
      LeRoundTrip(words[w + n - 1], 4);
      assert s[4 * (n - 1)..4 * n] == PutInts(words)[4 * (w + n - 1)..4 * (w + n - 1) + 4];
    }
  }

  lemma {:induction false} SumSplit(words: seq<nat>, w: nat, n: nat)
    requires w + n <= |words|
    ensures SumSizes(words, w + n) == SumSizes(words, w) + SumSizes(words[w..w + n], n)
    decreases n
  {
    if n > 0 {
      SumSplit(words, w, n - 1);
      SumPrefix(words[w..w + n], words[w..w + n - 1], n - 1);
    }
  }

  lemma {:induction false} SumPrefix(a: seq<nat>, b: seq<nat>, n: nat)
    requires n <= |a| && n <= |b| && a[..n] == b[..n]
    ensures SumSizes(a, n) == SumSizes(b, n)
    decreases n
  {
    if n > 0 {
      assert a[n - 1] == a[..n][n - 1] == b[..n][n - 1];
      assert a[..n - 1] == a[..n][..n - 1] && b[..n - 1] == b[..n][..n - 1];
      SumPrefix(a, b, n - 1);
    }
  }

  /** read_block_index: n words from the cursor, the sum of their sizes, the next cursor. */
  function ReadBlockIndex(c: Codec, image: seq<byte>, cur: Ref, n: nat): Option<(seq<nat>, nat, Ref)>
  {
    match ReadMeta(c, image, cur, 4 * n)
    case None => None
    case Some((s, next)) =>
      if |s| != 4 * n then None else
      var words := GetInts(s, n);
      Some((words, SumSizes(words, n), next))
  }

  // ---------- the file system the reader runs on ----------

  /** An inode table with block positions counted from `base`, and the files in it. */
  datatype Fs = Fs(p: Packer, blocks: seq<seq<byte>>, image: seq<byte>, base: nat, files: map<nat, File>)

  ghost predicate FsOk(fs: Fs)
  {
    && Lossless(fs.p.codec) && WellCut(fs.blocks) && Holds(fs.image, fs.base, EncodeBlocks(fs.p, fs.blocks))
    && forall n :: n in fs.files ==> n != 0 && fs.files[n].inode.number == n && FileOk(fs, fs.files[n])
  }

  /** The block list stands in the inode table where the inode says. */
  ghost predicate FileOk(fs: Fs, f: File)
  {
    && Words32(f.words) && Holds(Flatten(fs.blocks), f.listAt, PutInts(f.words))
    && f.listAt / BLOCK <= |fs.blocks| && f.inode.list == CursorAt(fs.p, fs.blocks, fs.base, f.listAt)
  }

  /** The cursor of word w and the address of data block w: what a checkpoint records. */
  ghost predicate AtWord(fs: Fs, f: File, w: nat, cur: Ref, data: nat)
  {
    && w <= |f.words| && (f.listAt + 4 * w) / BLOCK <= |fs.blocks|
    && cur == CursorAt(fs.p, fs.blocks, fs.base, f.listAt + 4 * w)
    && data == f.inode.start + SumSizes(f.words, w)
  }

  /** Reading n words from word w's place leads to word w + n's place. */
  lemma ReadWords(fs: Fs, env: (nat, Cache, int) -> Cache, f: File, w: nat, n: nat, cur: Ref, data: nat)
    requires Setting(fs, env) && FileOk(fs, f) && AtWord(fs, f, w, cur, data) && 0 < n && w + n <= |f.words|
    ensures var r := ReadBlockIndex(fs.p.codec, fs.image, cur, n);
            r.Some? && r.value.0 == f.words[w..w + n] && AtWord(fs, f, w + n, r.value.2, data + r.value.1)
  {
    hide EncodeBlocks, Flatten, ReadMeta, PutInts, GetInts, SumSizes, Respects;
    var s, q := Flatten(fs.blocks), f.listAt + 4 * w;
    InStream(fs.blocks, q + 4 * n);
    ReadMetaBack(fs.p, fs.blocks, fs.image, fs.base, q, 4 * n);
    var bytes := s[q..q + 4 * n];
    HoldsSlice(s, f.listAt, PutInts(f.words), 4 * w, 4 * n);
    assert bytes == PutInts(f.words)[4 * w..4 * w + 4 * n];
    IntsBack(f.words, w, n, bytes);
    SumSplit(f.words, w, n);
  }

  // ---------- slots ----------

  datatype MetaEntry = MetaEntry(dataBlock: nat, indexBlock: int, offset: nat)

  datatype Slot = Slot(inodeNumber: nat, offset: nat, entries: seq<MetaEntry>, skip: nat, locked: bool)

  datatype Cache = Cache(slots: seq<Slot>, next: nat)

  /** calculate_skip. With no whole block the subtraction is done in unsigned
      arithmetic and wraps, which the clamp turns into 7. */
  function CalculateSkip(blocks: nat): (skip: nat)
    ensures 1 <= skip <= 7
  {
    if blocks == 0 then 7 else
      var skip := (blocks - 1) / ((META_SLOTS * META_ENTRIES + 1) * META_INDEXES);
      if skip >= 7 then 7 else skip + 1
  }

  /** Block-list words per checkpoint. */
  function Unit(inode: Inode): nat
  {
    META_INDEXES * CalculateSkip(inode.fileBlocks)
  }

  ghost predicate EntryRight(fs: Fs, f: File, i: nat, e: MetaEntry)
  {
    fs.base + e.indexBlock >= 0 && AtCheckpoint(fs, f, i, Ref(fs.base + e.indexBlock, e.offset), e.dataBlock)
  }

  /** Every checkpoint of a slot, locked or not, is right; a slot that is not locked has
      at least one. */
  ghost predicate SlotOk(fs: Fs, m: Slot)
  {
    m.inodeNumber != 0 ==>
      && m.inodeNumber in fs.files && 1 <= m.offset && |m.entries| <= META_ENTRIES
      && (!m.locked ==> m.entries != [])
      && forall j :: 0 <= j < |m.entries| ==> EntryRight(fs, fs.files[m.inodeNumber], m.offset + j, m.entries[j])
  }

  ghost predicate CacheOk(fs: Fs, c: Cache)
  {
    && (|c.slots| == 0 || |c.slots| == META_NUMBER) && c.next < META_NUMBER
    && forall i :: 0 <= i < |c.slots| ==> SlotOk(fs, c.slots[i])
  }

  /** What one step of a reader may do to the cache seen by the others: slots that
      someone else has locked stay as they are. `mine` is the slot it owns, or -1. */
  ghost predicate LeavesOthers(before: Cache, after: Cache, mine: int)
  {
    && (before.slots != [] ==> |after.slots| == |before.slots|)
    && forall i :: 0 <= i < |before.slots| && i != mine && before.slots[i].locked ==> after.slots[i] == before.slots[i]
  }

  /** Slot `mine` was free when the others last ran, or already owned. */
  ghost predicate Took(seen: Cache, held: int, mine: int)
  {
    held == mine || (held == -1 && (seen.slots == [] || (0 <= mine < |seen.slots| && !seen.slots[mine].locked)))
  }

  /** A change to one's own slot leaves the others alone. */
  lemma OwnChange(seen: Cache, c: Cache, held: int, mine: nat, m: Slot)
    requires LeavesOthers(seen, c, held) && Took(seen, held, mine) && mine < |c.slots|
    ensures LeavesOthers(seen, c.(slots := c.slots[mine := m]), held)
  {
  }

  /** All the other readers: whatever they do between two steps keeps the cache right
      and leaves the slot this reader has locked alone. */
  ghost predicate Respects(fs: Fs, env: (nat, Cache, int) -> Cache)
  {
    forall t: nat, c: Cache, mine: int {:trigger env(t, c, mine)} ::
      CacheOk(fs, c) ==>
        && CacheOk(fs, env(t, c, mine))
        && (c.slots != [] ==> |env(t, c, mine).slots| == |c.slots|)
        && (0 <= mine < |c.slots| ==> env(t, c, mine).slots[mine] == c.slots[mine])
  }

  /** Nobody else is there. */
  ghost predicate Still(env: (nat, Cache, int) -> Cache)
  {
    forall t: nat, c: Cache, mine: int {:trigger env(t, c, mine)} :: env(t, c, mine) == c
  }

  predicate Eligible(m: Slot, number: nat, low: nat, high: nat)
  {
    !m.locked && m.inodeNumber == number && low <= m.offset <= high
  }

  function Turn(first: nat, k: nat): (i: nat)
    ensures i < META_NUMBER
  {
    (first + k) % META_NUMBER
  }

  /** What a failed read does to the slot being grown before it is released: the 4.0
      reader gives an empty slot back (`clears`), the 2.4 reader does not. */
  function AfterFailure(m: Slot, clears: bool): Slot
  {
    if clears && m.entries == [] then m.(inodeNumber := 0, locked := false) else m.(locked := false)
  }

  /** A failed read leaves a usable slot exactly when the slot already had a checkpoint
      or the reader gives empty slots back. */
  lemma FailureKeepsSlot(fs: Fs, m: Slot, clears: bool)
    requires SlotOk(fs, m) && m.inodeNumber != 0 && m.locked
    ensures SlotOk(fs, AfterFailure(m, clears)) <==> clears || m.entries != []
  {
    var n := AfterFailure(m, clears);
    if n.inodeNumber != 0 {
      assert n.entries == m.entries && n.inodeNumber == m.inodeNumber && n.offset == m.offset;
    }
  }

  /** The subscript get_meta_index takes in a slot it located. */
  function Subscript(m: Slot, index: nat): int
  {
    (if index < m.offset + |m.entries| then index else m.offset + |m.entries| - 1) - m.offset
  }

  /** An empty slot left behind would be read in front of its entries; a slot that is
      right never is. */
  lemma SubscriptInSlot(m: Slot, index: nat)
    requires m.offset <= index
    ensures 0 <= Subscript(m, index) < |m.entries| <==> m.entries != []
    ensures m.entries == [] ==> Subscript(m, index) == -1
  {
  }

  /** A right file system, next to readers that respect the locks. */
  ghost predicate Setting(fs: Fs, env: (nat, Cache, int) -> Cache)
  {
    FsOk(fs) && Respects(fs, env)
  }

  ghost predicate IsFile(fs: Fs, ino: Inode, f: File)
  {
    ino.number != 0 && ino.number in fs.files && f == fs.files[ino.number] && f.inode == ino
  }

  /** Checkpoint i of a file: the place of word i * Unit. */
  ghost predicate AtCheckpoint(fs: Fs, f: File, i: nat, cur: Ref, data: nat)
  {
    AtWord(fs, f, i * Unit(f.inode), cur, data)
  }

  ghost predicate HasCheckpoint(f: File, i: nat)
  {
    i * Unit(f.inode) <= |f.words|
  }

  class MetaCache {
    var slots: seq<Slot>
    var next: nat
    var time: nat
    ghost var seen: Cache
    ghost var held: int

    function State(): Cache
      reads this
    {
      Cache(slots, next)
    }

    /** Since the others last ran, leaving the state `seen` while this reader owned slot `held`,
        it has done nothing to the slots they have locked. */
    ghost predicate Fair()
      reads this
    {
      LeavesOthers(seen, State(), held)
    }

    /** This reader owns slot `mine`, perhaps since a moment ago. */
    ghost predicate Owns(mine: int)
      reads this
    {
      Fair() && Took(seen, held, mine)
    }

    /** This reader has given up: the slot it owned for this inode when the others last ran is
        released, and nothing else has changed since. */
    ghost predicate GaveUp(number: nat, clears: bool)
      reads this
    {
      && 0 <= held < |seen.slots| && seen.slots[held].locked && seen.slots[held].inodeNumber == number
      && State() == seen.(slots := seen.slots[held := AfterFailure(seen.slots[held], clears)])
    }

    constructor ()
      ensures State() == Cache([], 0) && Fair()
    {
      slots, next, time := [], 0, 0;
      seen, held := Cache([], 0), -1;
    }

    /** Other readers run for a while. They may rely on what this one has left alone. */
    method Interfere(env: (nat, Cache, int) -> Cache, mine: int, ghost fs: Fs)
      requires Setting(fs, env) && CacheOk(fs, State()) && Fair()
      modifies this
      ensures CacheOk(fs, State()) && seen == State() && held == mine && Fair()
      ensures old(slots) != [] ==> |slots| == |old(slots)|
      ensures 0 <= mine < |old(slots)| ==> slots[mine] == old(slots)[mine]
      ensures State() == env(old(time), old(State()), mine)
    {
      hide FsOk, CacheOk;
      var c := env(time, Cache(slots, next), mine);
      slots, next, time := c.slots, c.next, time + 1;
      seen, held := c, mine;
    }

    /** locate_meta_index: among the unlocked slots of this inode with offset in
        [offset, index], lock and return the one with the greatest offset. */
    method LocateMetaIndex(number: nat, index: nat, offset0: nat, ghost fs: Fs) returns (mine: int)
      requires CacheOk(fs, State()) && number != 0 && seen == State() && held == -1
      modifies this`slots
      ensures CacheOk(fs, State()) && Fair() && (mine >= 0 ==> Owns(mine))
      ensures |slots| == |old(slots)| && -1 <= mine < |slots|
      ensures mine == -1 ==> slots == old(slots)
      ensures mine >= 0 ==>
                && slots == old(slots)[mine := old(slots)[mine].(locked := true)] && !old(slots)[mine].locked
                && slots[mine].inodeNumber == number && offset0 <= slots[mine].offset <= index &&
                  slots[mine].entries != []
                && forall i :: 0 <= i < |slots| && Eligible(old(slots)[i], number, offset0, index) ==>
                     slots[i].offset <= slots[mine].offset
    {
      mine := -1;
      var offset := offset0;
      var i := 0;
      while i < |slots|
        invariant 0 <= i <= |slots| && -1 <= mine < i && offset0 <= offset
        invariant mine == -1 ==> offset == offset0
        invariant mine >= 0 ==>
                    slots[mine].inodeNumber == number && offset == slots[mine].offset <= index && !slots[mine].locked
        invariant forall k :: 0 <= k < i && Eligible(slots[k], number, offset0, index) ==>
                    mine >= 0 && slots[k].offset <= offset
      {
        if slots[i].inodeNumber == number && slots[i].offset >= offset && slots[i].offset <= index && !slots[i].locked {
          mine := i;
          offset := slots[i].offset;
        }
        i := i + 1;
      }
      if mine >= 0 {
        assert SlotOk(fs, slots[mine]);
        slots := slots[mine := slots[mine].(locked := true)];
      }
    }

    /** empty_meta_index: allocate the slots on first use, then claim the next slot that
        is not locked; -1 when all are locked. */
    method EmptyMetaIndex(number: nat, offset: nat, skip: nat, ghost fs: Fs) returns (mine: int)
      requires CacheOk(fs, State()) && number in fs.files && 1 <= offset && seen == State() && held == -1
      modifies this`slots, this`next
      ensures CacheOk(fs, State()) && Fair() && (mine >= 0 ==> Owns(mine)) && (old(slots) == [] ==> mine >= 0)
      ensures |slots| == META_NUMBER && -1 <= mine < |slots|
      ensures mine >= 0 ==> slots[mine] == Slot(number, offset, [], skip, true)
      ensures mine >= 0 && old(slots) != [] ==> !old(slots)[mine].locked
      ensures mine == -1 ==> forall i :: 0 <= i < |slots| ==> slots[i].locked
    {
      if slots == [] {
        slots := seq(META_NUMBER, i => Slot(0, 0, [], 0, false));
        next := 0;
      }
      ghost var entry := slots;
      var i := META_NUMBER;
      ghost var first := next;
      while i > 0 && slots[next].locked
        invariant 0 <= i <= META_NUMBER && next < META_NUMBER && slots == entry
        invariant next == Turn(first, META_NUMBER - i)
        invariant forall k :: 0 <= k < META_NUMBER - i ==> slots[Turn(first, k)].locked
      {
        next := (next + 1) % META_NUMBER;
        i := i - 1;
      }
      if i == 0 {
        AllVisited(slots, first);
        return -1;
      }
      mine := next;
      next := (next + 1) % META_NUMBER;
      slots := slots[mine := Slot(number, offset, [], skip, true)];
    }

    /** Read the block sizes of one checkpoint's worth of words, 64 at a time. */
    method ReadUnit(c: Codec, image: seq<byte>, cur0: Ref, data0: nat, count: nat, env: (nat, Cache, int) -> Cache,
                    fails: nat -> bool, mine: int, ghost fs: Fs, ghost f: File, ghost w: nat)
      returns (ok: bool, cur: Ref, data: nat)
      requires Setting(fs, env) && CacheOk(fs, State()) && c == fs.p.codec && image == fs.image
      requires FileOk(fs, f) && AtWord(fs, f, w, cur0, data0) && w + count <= |f.words| && 0 <= mine < |slots| &&
               Owns(mine)
      modifies this
      ensures CacheOk(fs, State()) && |slots| == |old(slots)| && slots[mine] == old(slots)[mine] && Owns(mine)
      ensures ok ==> AtWord(fs, f, w + count, cur, data)
      ensures !ok ==> (exists t :: fails(t)) && held == mine && seen == State()
      ensures count > 0 && (forall t :: fails(t)) ==> !ok
    {
      hide Setting, FileOk, AtWord, CacheOk, ReadBlockIndex, LeavesOthers;
      cur, data := cur0, data0;
      var blocks := count;
      while blocks > 0
        invariant 0 <= blocks <= count && AtWord(fs, f, w + (count - blocks), cur, data)
        invariant CacheOk(fs, State()) && |slots| == |old(slots)| && slots[mine] == old(slots)[mine] && Owns(mine)
        invariant blocks < count ==> exists t :: !fails(t)
      {
        var block := if blocks > READ_WORDS then READ_WORDS else blocks;
        Interfere(env, mine, fs);
        if fails(time) {
          return false, cur, data;
        }
        ReadWords(fs, env, f, w + (count - blocks), block, cur, data);
        var r := ReadBlockIndex(c, image, cur, block).value;
        cur, data := r.2, data + r.1;
        blocks := blocks - block;
      }
      ok := true;
    }

    /** Extend the slot this reader owns up to `index` or to the slot's capacity. On a
        failed read the slot is released as the reader at hand does it. */
    method GrowSlot(c: Codec, image: seq<byte>, base: nat, ino: Inode, index: nat, offset0: nat, cur0: Ref, data0: nat,
                    mine: int, env: (nat, Cache, int) -> Cache, fails: nat -> bool, clears: bool, ghost fs: Fs,
                    ghost f: File)
      returns (ok: bool, offset: nat, cur: Ref, data: nat)
      requires Setting(fs, env) && CacheOk(fs, State()) && c == fs.p.codec && image == fs.image && base == fs.base
      requires IsFile(fs, ino, f) && FileOk(fs, f)
      requires 0 <= mine < |slots| && slots[mine].locked && slots[mine].inodeNumber == ino.number
      requires HasCheckpoint(f, index) && AtCheckpoint(fs, f, offset0, cur0, data0)
      requires var last := slots[mine].offset + |slots[mine].entries| - 1;
               offset0 <= index && (offset0 == last || (offset0 == index && last >= index))
      requires slots[mine].entries == [] ==> offset0 < index
      requires Owns(mine)
      modifies this
      ensures Fair()
      ensures ok ==>
                && CacheOk(fs, State()) && |slots| == |old(slots)| && slots[mine].locked && slots[mine].entries != []
                && offset0 <= offset <= index && AtCheckpoint(fs, f, offset, cur, data) && Owns(mine)
                && (old(slots)[mine].entries == [] ==> offset0 < offset)
      ensures !ok ==> exists t :: fails(t)
      ensures !ok ==> |slots| == |old(slots)| && held == mine && GaveUp(ino.number, clears)
      ensures !ok ==> (CacheOk(fs, State()) <==> clears || slots[mine].entries != [])
      ensures old(slots)[mine].entries == [] && (forall t :: fails(t)) ==>
                !ok && slots[mine] == AfterFailure(old(slots)[mine], clears)
    {
      hide Setting, FileOk, AtWord, CacheOk, SlotOk, CalculateSkip, LeavesOthers, Took;
      offset, cur, data := offset0, cur0, data0;
      var unit := META_INDEXES * CalculateSkip(ino.fileBlocks);
      var first := slots[mine].offset;
      var i := first + |slots[mine].entries|;
      ghost var begun := i;
      while i <= index && i < first + META_ENTRIES
        invariant CacheOk(fs, State()) && |slots| == |old(slots)| && slots[mine].locked
        invariant slots[mine].inodeNumber == ino.number && slots[mine].offset == first
        invariant begun <= i == first + |slots[mine].entries|
        invariant offset0 <= offset <= index && (offset == i - 1 || (offset == index && i > index))
        invariant AtCheckpoint(fs, f, offset, cur, data)
        invariant i > begun ==> offset0 < offset && exists t :: !fails(t)
        invariant Owns(mine) && (i == begun ==> slots[mine] == old(slots)[mine])
      {
        NextUnit(offset, index, unit, |f.words|);
        ghost var before := slots[mine];
        ok, cur, data := ReadUnit(c, image, cur, data, unit, env, fails, mine, fs, f, offset * unit);
        SlotOfCache(fs, State(), mine);
        if !ok {
          FailedCache(fs, State(), mine, clears);
          OwnChange(seen, State(), held, mine, AfterFailure(slots[mine], clears));
          slots := slots[mine := AfterFailure(slots[mine], clears)];
          return;
        }
        var entry := MetaEntry(data, cur.block - base, cur.offset);
        assert EntryRight(fs, f, i, entry);
        GrownSlotOk(fs, slots[mine], entry);
        CacheWith(fs, State(), mine, slots[mine].(entries := slots[mine].entries + [entry]));
        OwnChange(seen, State(), held, mine, slots[mine].(entries := slots[mine].entries + [entry]));
        slots := slots[mine := slots[mine].(entries := slots[mine].entries + [entry])];
        offset, i := offset + 1, i + 1;
      }
      ok := true;
    }

    /** One round of get_meta_index: own a slot that leads on from checkpoint `offset0`,
        grow it and release it. `full` reports that every slot was locked. */
    method Advance(c: Codec, image: seq<byte>, base: nat, ino: Inode, index: nat, offset0: nat, cur0: Ref, data0: nat,
                   env: (nat, Cache, int) -> Cache, fails: nat -> bool, clears: bool, ghost fs: Fs, ghost f: File)
      returns (ok: bool, full: bool, offset: nat, cur: Ref, data: nat)
      requires Setting(fs, env) && CacheOk(fs, State()) && c == fs.p.codec && image == fs.image && base == fs.base &&
               Fair()
      requires IsFile(fs, ino, f) && FileOk(fs, f)
      requires offset0 < index && HasCheckpoint(f, index) && AtCheckpoint(fs, f, offset0, cur0, data0)
      modifies this
      ensures ok ==>
                && CacheOk(fs, State()) && offset0 <= offset <= index && AtCheckpoint(fs, f, offset, cur, data)
                && (!full ==> offset0 < offset)
      ensures Fair()
      ensures !ok ==> exists t :: fails(t)
      ensures !ok ==> GaveUp(ino.number, clears)
      ensures !ok ==> (CacheOk(fs, State()) <==> clears || slots[held].entries != [])
      ensures old(slots) == [] && Still(env) && (forall t :: fails(t)) ==>
                !ok &&
                slots[held] ==
                AfterFailure(Slot(ino.number, offset0 + 1, [], CalculateSkip(ino.fileBlocks), true), clears)
    {
      hide Setting, FileOk, CacheOk, CalculateSkip, Subscript, LeavesOthers, Eligible, HasCheckpoint, AtCheckpoint,
        Took;
      ok, full, offset, cur, data := true, false, offset0, cur0, data0;
      Interfere(env, -1, fs);
      var mine := LocateMetaIndex(ino.number, index, offset + 1, fs);
      if mine == -1 {
        Interfere(env, -1, fs);
        mine := EmptyMetaIndex(ino.number, offset + 1, CalculateSkip(ino.fileBlocks), fs);
        if mine == -1 {
          full := true;
          return;
        }
      } else {
        var m := slots[mine];
        LocatedEntry(fs, State(), mine, index);
        offset := m.offset + Subscript(m, index);
        var entry := m.entries[Subscript(m, index)];
        cur, data := Ref(entry.indexBlock + base, entry.offset), entry.dataBlock;
      }
      ok, offset, cur, data := GrowSlot(c, image, base, ino, index, offset, cur, data, mine, env, fails, clears, fs, f);
      if ok {
        ReleasedOk(fs, State(), mine);
        OwnChange(seen, State(), held, mine, slots[mine].(locked := false));
        slots := slots[mine := slots[mine].(locked := false)];
        Interfere(env, -1, fs);
      }
    }

    /** get_meta_index: walk checkpoints towards `wanted`, using located slots, growing
        them, or claiming new ones; give up early when every slot is locked. */
    method GetMetaIndex(c: Codec, image: seq<byte>, base: nat, ino: Inode, wanted: nat,
                        env: (nat, Cache, int) -> Cache, fails: nat -> bool, clears: bool, ghost fs: Fs, ghost f: File)
      returns (ok: bool, res: nat, cur: Ref, data: nat)
      requires Setting(fs, env) && CacheOk(fs, State()) && c == fs.p.codec && image == fs.image && base == fs.base &&
               Fair()
      requires IsFile(fs, ino, f) && wanted < |f.words|
      modifies this
      ensures ok ==> CacheOk(fs, State()) && res <= wanted && AtWord(fs, f, res, cur, data)
      ensures Fair()
      ensures !ok ==> exists t :: fails(t)
      ensures !ok ==> GaveUp(ino.number, clears)
      ensures !ok ==> (CacheOk(fs, State()) <==> clears || slots[held].entries != [])
      ensures old(slots) == [] && Still(env) && (forall t :: fails(t)) && wanted >= Unit(ino) ==>
                !ok &&
                slots[held] == AfterFailure(Slot(ino.number, 1, [], CalculateSkip(ino.fileBlocks), true), clears)
    {
      hide Setting, FileOk, AtWord, CacheOk, CalculateSkip, IsFile, AtCheckpoint, HasCheckpoint, Times, Over, Unit,
        LeavesOthers, Still;
      FileOfFs(fs, env, ino, f);
      WordZero(fs, f);
      IndexHasCheckpoint(f, wanted);
      var unit := Unit(ino);
      var index: nat, offset: nat := Over(wanted, unit), 0;
      cur, data := ino.list, ino.start;
      IndexPositive(wanted, unit);
      while offset < index
        invariant CacheOk(fs, State()) && offset <= index && AtCheckpoint(fs, f, offset, cur, data) && Fair()
        invariant offset == 0 ==> slots == old(slots)
        invariant offset > 0 ==> !(old(slots) == [] && Still(env) && forall t :: fails(t))
        decreases index - offset
      {
        var full;
        ok, full, offset, cur, data :=
          Advance(c, image, base, ino, index, offset, cur, data, env, fails, clears, fs, f);
        if !ok {
          return false, 0, cur, data;
        }
        if full {
          break;
        }
      }
      ok, res := true, Times(offset, unit);
      CheckpointBefore(f, offset, wanted);
      CheckpointWord(fs, f, offset, unit, cur, data);
    }

    /** read_blocklist: in every state of the slots, including locked slots and slots of
        other inodes, and whatever other readers do meanwhile, a read that does not fail
        returns the start block plus the sum of the first `index` block sizes, together
        with entry `index`. */
    method ReadBlocklist(c: Codec, image: seq<byte>, base: nat, ino: Inode, index: nat,
                         env: (nat, Cache, int) -> Cache, fails: nat -> bool, clears: bool, ghost fs: Fs, ghost f: File)
      returns (r: Option<(nat, nat)>)
      requires Setting(fs, env) && CacheOk(fs, State()) && c == fs.p.codec && image == fs.image && base == fs.base
      requires IsFile(fs, ino, f) && index < |f.words| && Fair()
      modifies this
      ensures r.Some? ==> r == Some((ino.start + SumSizes(f.words, index), f.words[index]))
      ensures r.Some? || clears ==> CacheOk(fs, State())
      ensures Fair()
      ensures (forall t :: !fails(t)) ==> r.Some?
    {
      hide Setting, FileOk, CacheOk, ReadBlockIndex, SumSizes, AtWord, IsFile, LeavesOthers;
      FileOfFs(fs, env, ino, f);
      var ok, res, cur, data := GetMetaIndex(c, image, base, ino, index, env, fails, clears, fs, f);
      if !ok {
        return None;
      }
      var left := index - res;
      while left > 0
        invariant 0 <= left <= index && AtWord(fs, f, index - left, cur, data) && CacheOk(fs, State()) && Fair()
      {
        var blocks := if left > READ_WORDS then READ_WORDS else left;
        Interfere(env, -1, fs);
        if fails(time) {
          return None;
        }
        ReadWords(fs, env, f, index - left, blocks, cur, data);
        var next := ReadBlockIndex(c, image, cur, blocks).value;
        cur, data, left := next.2, data + next.1, left - blocks;
      }
      Interfere(env, -1, fs);
      if fails(time) {
        return None;
      }
      ReadWords(fs, env, f, index, 1, cur, data);
      var one := ReadBlockIndex(c, image, cur, 1).value;
      assert one.0 == f.words[index..index + 1];
      PlaceData(fs, f, index, cur, data);
      r := Some((data, one.0[0]));
    }
  }

  lemma FileOfFs(fs: Fs, env: (nat, Cache, int) -> Cache, ino: Inode, f: File)
    requires Setting(fs, env) && IsFile(fs, ino, f)
    ensures FileOk(fs, f) && f.inode == ino
  {
  }

  /** A place is told by its cursor and data address alone. */
  lemma PlaceData(fs: Fs, f: File, w: nat, cur: Ref, data: nat)
    requires AtWord(fs, f, w, cur, data)
    ensures w <= |f.words| && data == f.inode.start + SumSizes(f.words, w)
  {
  }

  lemma SlotOfCache(fs: Fs, c: Cache, i: nat)
    requires CacheOk(fs, c) && i < |c.slots|
    ensures SlotOk(fs, c.slots[i])
  {
  }

  lemma CacheWith(fs: Fs, c: Cache, i: nat, m: Slot)
    requires CacheOk(fs, c) && i < |c.slots| && SlotOk(fs, m)
    ensures CacheOk(fs, c.(slots := c.slots[i := m]))
  {
    hide SlotOk;
  }

  /** A failed read leaves the cache right exactly when the slot being grown already had a
      checkpoint or the reader gives empty slots back. */
  lemma FailedCache(fs: Fs, c: Cache, i: nat, clears: bool)
    requires CacheOk(fs, c) && i < |c.slots| && c.slots[i].inodeNumber != 0 && c.slots[i].locked
    ensures CacheOk(fs, c.(slots := c.slots[i := AfterFailure(c.slots[i], clears)])) <==>
              clears || c.slots[i].entries != []
    ensures AfterFailure(c.slots[i], clears).entries == c.slots[i].entries
  {
    hide SlotOk;
    var m := AfterFailure(c.slots[i], clears);
    var after := c.(slots := c.slots[i := m]);
    FailureKeepsSlot(fs, c.slots[i], clears);
    if SlotOk(fs, m) {
      CacheWith(fs, c, i, m);
    } else {
      assert after.slots[i] == m;
    }
  }

  lemma ReleasedOk(fs: Fs, c: Cache, i: nat)
    requires CacheOk(fs, c) && i < |c.slots| && c.slots[i].entries != []
    ensures CacheOk(fs, c.(slots := c.slots[i := c.slots[i].(locked := false)]))
  {
    hide EntryRight;
    assert SlotOk(fs, c.slots[i]);
    assert SlotOk(fs, c.slots[i].(locked := false));
  }

  lemma LocatedEntry(fs: Fs, c: Cache, i: nat, index: nat)
    requires CacheOk(fs, c) && i < |c.slots| && c.slots[i].inodeNumber != 0 && c.slots[i].offset <= index
    requires c.slots[i].entries != []
    ensures var m := c.slots[i];
            var k := Subscript(m, index);
            0 <= k < |m.entries| && m.inodeNumber in fs.files
            && EntryRight(fs, fs.files[m.inodeNumber], m.offset + k, m.entries[k])
            && m.offset + k <= index
            && (m.offset + k == index || m.offset + k == m.offset + |m.entries| - 1)
  {
    hide EntryRight;
    SubscriptInSlot(c.slots[i], index);
    assert SlotOk(fs, c.slots[i]);
  }

  lemma CheckpointWord(fs: Fs, f: File, i: nat, unit: nat, cur: Ref, data: nat)
    requires AtCheckpoint(fs, f, i, cur, data) && unit == Unit(f.inode)
    ensures AtWord(fs, f, Times(i, unit), cur, data)
  {
  }

  function Times(i: nat, unit: nat): nat { i * unit }

  function Over(wanted: nat, unit: nat): nat
    requires unit > 0
  {
    wanted / unit
  }

  lemma IndexHasCheckpoint(f: File, wanted: nat)
    requires wanted < |f.words|
    ensures Unit(f.inode) > 0 && HasCheckpoint(f, Over(wanted, Unit(f.inode)))
  {
    Scaled(wanted, Unit(f.inode));
  }

  lemma CheckpointBefore(f: File, offset: nat, wanted: nat)
    requires Unit(f.inode) > 0 && offset <= Over(wanted, Unit(f.inode))
    ensures Times(offset, Unit(f.inode)) <= wanted
  {
    Scaled(wanted, Unit(f.inode));
    ScaledBack(offset, Over(wanted, Unit(f.inode)), Unit(f.inode));
  }

  lemma WordZero(fs: Fs, f: File)
    requires FileOk(fs, f)
    ensures AtCheckpoint(fs, f, 0, f.inode.list, f.inode.start)
  {
  }

  lemma IndexPositive(wanted: nat, unit: nat)
    requires unit > 0
    ensures wanted >= unit ==> Over(wanted, unit) > 0
  {
  }

  lemma Scaled(wanted: nat, unit: nat)
    requires unit > 0
    ensures (wanted / unit) * unit <= wanted
  {
  }

  lemma ScaledBack(offset: nat, index: nat, unit: nat)
    requires offset <= index
    ensures offset * unit <= index * unit
  {
  }

  lemma NextUnit(offset: nat, index: nat, unit: nat, n: nat)
    requires offset + 1 <= index && index * unit <= n
    ensures (offset + 1) * unit == offset * unit + unit <= n
  {
    assert (index - (offset + 1)) * unit >= 0;
  }

  lemma GrownSlotOk(fs: Fs, m: Slot, entry: MetaEntry)
    requires SlotOk(fs, m) && m.inodeNumber != 0 && |m.entries| < META_ENTRIES
    requires EntryRight(fs, fs.files[m.inodeNumber], m.offset + |m.entries|, entry)
    ensures SlotOk(fs, m.(entries := m.entries + [entry]))
  {
    hide EntryRight;
  }

  lemma AllVisited(slots: seq<Slot>, first: nat)
    requires |slots| == META_NUMBER && first < META_NUMBER
    requires forall k :: 0 <= k < META_NUMBER ==> slots[Turn(first, k)].locked
    ensures forall i :: 0 <= i < |slots| ==> slots[i].locked
  {
    forall i | 0 <= i < |slots|
      ensures slots[i].locked
    {
      var k := (i + META_NUMBER - first) % META_NUMBER;
      assert Turn(first, k) == i;
    }
  }

  // ---------- what one reader leaves alone is what the others rely on ----------

  /** Steps of other readers, from cache to cache; owners[i] is the slot the reader of step i owned
      before it, or -1. Each is fair and keeps the cache right. */
  ghost predicate FairSteps(fs: Fs, caches: seq<Cache>, owners: seq<int>)
  {
    && |caches| == |owners| + 1 && (forall i :: 0 <= i < |caches| ==> CacheOk(fs, caches[i]))
    && forall i :: 0 <= i < |owners| ==> LeavesOthers(caches[i], caches[i + 1], owners[i])
  }

  /** Whatever number of fair steps other readers make, the slot a reader has locked is as it left
      it: they respect its lock. */
  lemma {:induction false} FairStepsRespect(fs: Fs, caches: seq<Cache>, owners: seq<int>, mine: nat)
    requires FairSteps(fs, caches, owners) && mine < |caches[0].slots| && caches[0].slots[mine].locked
    requires forall i :: 0 <= i < |owners| ==> owners[i] != mine
    ensures var last := caches[|owners|];
            CacheOk(fs, last) && |last.slots| == |caches[0].slots| && last.slots[mine] == caches[0].slots[mine]
    decreases |owners|
  {
    hide CacheOk;
    if owners != [] {
      var n := |owners| - 1;
      assert FairSteps(fs, caches[..n + 1], owners[..n]);
      FairStepsRespect(fs, caches[..n + 1], owners[..n], mine);
      assert caches[..n + 1][n] == caches[n];
      assert LeavesOthers(caches[n], caches[n + 1], owners[n]) && owners[n] != mine;
    }
  }

  // ---------- a failed read that leaves an empty slot behind ----------

  /** One file of 2049 blocks in an uncompressed inode table. */
  function SmallFs(words: seq<nat>): Fs
  {
    var p := Packer(Codec(_ => [], (_, _) => None), true, 0.0);
    var blocks := Chop(PutInts(words));
    Fs(p, blocks, EncodeBlocks(p, blocks), 0, map[1 := File(Inode(1, |words|, 0, Ref(0, 0)), words, 0)])
  }

  lemma SmallFsOk(words: seq<nat>)
    requires words != [] && Words32(words)
    ensures FsOk(SmallFs(words))
  {
    hide PutInts, EncodeBlock, EncodeBlocks, Chop, Flatten;
    var fs, data := SmallFs(words), PutInts(words);
    ChopFlatten(data);
    TakeAll(data);
    TakeAll(fs.image);
    NoPosition(fs.p, fs.blocks);
  }

  lemma NoPosition(p: Packer, blocks: seq<seq<byte>>)
    ensures Position(p, blocks, 0) == 0
  {
  }

  /** The first lookup of word 2048 in the 2.4 reader, with nobody else there and a read that fails:
      an empty slot is left behind without a lock, the next lookup will take it, and the entry it
      reads is the one in front of the slot's entries. */
  method EmptySlotLeft(words: seq<nat>) returns (cache: MetaCache, ok: bool, ghost left: nat)
    requires |words| == 2049 && Words32(words)
    ensures !ok && left < |cache.slots| && !CacheOk(SmallFs(words), cache.State())
    ensures var m := cache.slots[left];
            m.entries == [] && Eligible(m, 1, 1, 1) && Subscript(m, 1) == -1
  {
    hide PutInts, EncodeBlocks, Chop, CacheOk, SlotOk, FsOk, Respects;
    var fs := SmallFs(words);
    var env := (t: nat, c: Cache, mine: int) => c;
    SmallFsOk(words);
    Alone(fs, env);
    cache := new MetaCache();
    NoSlots(fs);
    var ino := Inode(1, |words|, 0, Ref(0, 0));
    var res, cur, data;
    ok, res, cur, data := cache.GetMetaIndex(fs.p.codec, fs.image, 0, ino, 2048, env, t => true, false, fs,
                                                   fs.files[1]);
    left := cache.held;
  }

  lemma Alone(fs: Fs, env: (nat, Cache, int) -> Cache)
    requires Still(env)
    ensures Respects(fs, env)
  {
    hide CacheOk;
  }

  lemma NoSlots(fs: Fs)
    ensures CacheOk(fs, Cache([], 0))
  {
  }
}
