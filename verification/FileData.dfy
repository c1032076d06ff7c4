/** A regular file from its bytes to blocks, size words, fragment and inode, and back through
    unsquashfs, with sparse blocks, duplicates and holes. */
module FileData {
  import opened Bytes
  import opened Compressor
  import opened Checksum
  import opened Division
  import opened WriteCache
  import opened Pipeline
  import opened DupSearch
  import Fragments
  import opened Extract
  import opened FileInode
  import R = ReaderMain

  /** Block size and fragment policy, the data compressor, and whether all-zero blocks are
      left out. */
  datatype Config = Config(o: R.Options, packer: Packer, sparse: bool)

  ghost predicate ConfigOk(c: Config)
  {
    0 < c.o.block <= 0x10_0000 && Lossless(c.packer.codec)
  }

  // ---------- laying out ----------

  /** The file in blocks; the last may be short. */
  function Chunks(data: seq<byte>, block: nat): (r: seq<seq<byte>>)
    requires block > 0
    ensures data == [] <==> r == []
    ensures forall i :: 0 <= i < |r| ==> 0 < |r[i]| <= block
    decreases |data|
  {
    if data == [] then [] else if |data| <= block then [data] else [data[..block]] + Chunks(data[block..], block)
  }

  /** The deflator leaves out an all-zero block when sparse files are wanted. */
  predicate LeftOut(c: Config, chunk: seq<byte>) { c.sparse && AllZero(chunk) }

  function WordOf(c: Config, chunk: seq<byte>): nat
  {
    if LeftOut(c, chunk) then 0 else DataWord(Mangle(c.packer, chunk))
  }

  function StoredOf(c: Config, chunk: seq<byte>): seq<byte>
  {
    if LeftOut(c, chunk) then [] else Mangle(c.packer, chunk).data
  }

  function WordsOf(c: Config, chunks: seq<seq<byte>>): (r: seq<nat>)
    ensures |r| == |chunks| && forall i :: 0 <= i < |r| ==> r[i] == WordOf(c, chunks[i])
  {
    if chunks == [] then [] else [WordOf(c, chunks[0])] + WordsOf(c, chunks[1..])
  }

  function StoredsOf(c: Config, chunks: seq<seq<byte>>): (r: seq<seq<byte>>)
    ensures |r| == |chunks| && forall i :: 0 <= i < |r| ==> r[i] == StoredOf(c, chunks[i])
  {
    if chunks == [] then [] else [StoredOf(c, chunks[0])] + StoredsOf(c, chunks[1..])
  }

  /** The tail goes into a fragment unless the policy forbids it or it is left out. */
  predicate HasTail(c: Config, data: seq<byte>)
    requires c.o.block > 0
  {
    R.IsFragment(c.o, |data|) && Chunks(data, c.o.block) != [] &&
    !LeftOut(c, Chunks(data, c.o.block)[|Chunks(data, c.o.block)| - 1])
  }

  function Body(c: Config, data: seq<byte>): seq<seq<byte>>
    requires c.o.block > 0
  {
    var chunks := Chunks(data, c.o.block);
    if HasTail(c, data) then chunks[..|chunks| - 1] else chunks
  }

  function LaidOut(c: Config, data: seq<byte>): Laid
    requires c.o.block > 0
  {
    var chunks, body := Chunks(data, c.o.block), Body(c, data);
    Laid(|data|, WordsOf(c, body), StoredsOf(c, body), if HasTail(c, data) then chunks[|chunks| - 1] else [])
  }

  /** The blocks and the tail as main sees them, one after the other. */
  method LayOut(c: Config, data: seq<byte>) returns (f: Laid)
    requires c.o.block > 0
    ensures f == LaidOut(c, data)
  {
    hide WordOf, StoredOf, LeftOut, R.IsFragment, Chunks, WordsOf, StoredsOf, Progress;
    var words, stored, tail := [], [], [];
    var rest := data;
    ghost var done: seq<seq<byte>> := [];
    var fragment := R.IsFragment(c.o, |data|);
    ghost var all := Chunks(data, c.o.block);
    NoProgress(c);
    while rest != []
      invariant all == done + Chunks(rest, c.o.block) && Progress(c, done, words, stored, tail)
      invariant tail != [] ==> rest == []
      invariant rest == [] && done != [] ==> (tail != [] <==> fragment && !LeftOut(c, done[|done| - 1]))
      decreases |rest|
    {
      var last := |rest| <= c.o.block;
      var chunk := if last then rest else rest[..c.o.block];
      ChunksStep(rest, c.o.block);
      if last && fragment && !LeftOut(c, chunk) {
        tail := chunk;
        ProgressTail(c, done, words, stored, chunk);
      } else {
        ProgressBlock(c, done, words, stored, chunk);
        words := words + [WordOf(c, chunk)];
        stored := stored + [StoredOf(c, chunk)];
      }
      rest := if last then [] else rest[c.o.block..];
      Assoc(done, [chunk], Chunks(rest, c.o.block));
      done := done + [chunk];
    }
    ProgressDone(c, data, done, words, stored, tail, fragment);
    f := Laid(|data|, words, stored, tail);
  }

  lemma NoProgress(c: Config)
    ensures Progress(c, [], [], [], [])
  {
  }

  lemma ProgressBlock(c: Config, done: seq<seq<byte>>, words: seq<nat>, stored: seq<seq<byte>>, chunk: seq<byte>)
    requires Progress(c, done, words, stored, [])
    ensures Progress(c, done + [chunk], words + [WordOf(c, chunk)], stored + [StoredOf(c, chunk)], [])
  {
    WordsSnoc(c, done, chunk);
  }

  lemma ProgressTail(c: Config, done: seq<seq<byte>>, words: seq<nat>, stored: seq<seq<byte>>, chunk: seq<byte>)
    requires Progress(c, done, words, stored, []) && chunk != []
    ensures Progress(c, done + [chunk], words, stored, chunk)
  {
    TakeFront(done, chunk);
  }

  lemma ProgressDone(c: Config, data: seq<byte>, done: seq<seq<byte>>, words: seq<nat>, stored: seq<seq<byte>>,
                     tail: seq<byte>, fragment: bool)
    requires c.o.block > 0 && Chunks(data, c.o.block) == done + Chunks([], c.o.block) &&
             Progress(c, done, words, stored, tail)
    requires fragment == R.IsFragment(c.o, |data|) &&
             (done != [] ==> (tail != [] <==> fragment && !LeftOut(c, done[|done| - 1])))
    ensures Laid(|data|, words, stored, tail) == LaidOut(c, data)
  {
    hide LeftOut, R.IsFragment, WordsOf, StoredsOf;
    assert Chunks([], c.o.block) == [];
    assert Chunks(data, c.o.block) == done;
  }

  /** The words and stored bytes of the chunks dealt with, the tail apart. */
  ghost predicate Progress(c: Config, done: seq<seq<byte>>, words: seq<nat>, stored: seq<seq<byte>>, tail: seq<byte>)
  {
    if tail == [] then words == WordsOf(c, done) && stored == StoredsOf(c, done)
    else
      done != [] && tail == done[|done| - 1] && words == WordsOf(c, done[..|done| - 1]) &&
      stored == StoredsOf(c, done[..|done| - 1])
  }

  lemma TakeFront(done: seq<seq<byte>>, chunk: seq<byte>)
    ensures (done + [chunk])[..|done|] == done
  {
  }

  lemma ChunksStep(rest: seq<byte>, block: nat)
    requires block > 0 && rest != []
    ensures Chunks(rest, block) ==
            if |rest| <= block then [rest] + Chunks([], block) else [rest[..block]] + Chunks(rest[block..], block)
  {
    assert Chunks([], block) == [];
  }

  lemma WordsSnoc(c: Config, chunks: seq<seq<byte>>, chunk: seq<byte>)
    ensures WordsOf(c, chunks + [chunk]) == WordsOf(c, chunks) + [WordOf(c, chunk)]
    ensures StoredsOf(c, chunks + [chunk]) == StoredsOf(c, chunks) + [StoredOf(c, chunk)]
  {
  }

  /** A laid out file can be searched for: its blocks are as long as its words say. */
  lemma LaidBlocksOk(c: Config, data: seq<byte>)
    requires ConfigOk(c)
    ensures BlocksOk(LaidOut(c, data).words, LaidOut(c, data).stored)
  {
    hide DataWord, DataWordSize, Lossless;
    var body := Body(c, data);
    forall i | 0 <= i < |body|
      ensures |StoredOf(c, body[i])| == DataWordSize(WordOf(c, body[i]))
    {
      var st := Mangle(c.packer, body[i]);
      DataWordDecodes(st);
      DataWordDecodes(Stored(false, []));
      assert DataWordSize(0) == 0 by { NoWord(); }
    }
  }

  lemma NoWord()
    ensures DataWordSize(0) == 0
  {
  }

  // ---------- facts about chunks ----------

  lemma {:induction false} ChunksJoin(data: seq<byte>, block: nat)
    requires block > 0
    ensures Flatten(Chunks(data, block)) == data
    decreases |data|
  {
    if |data| > block {
      var first, rest := [data[..block]], Chunks(data[block..], block);
      ChunksJoin(data[block..], block);
      FlattenAppend(first, rest);
      FlattenOne(data[..block]);
      assert data == data[..block] + data[block..];
    } else if data != [] {
      FlattenOne(data);
    }
  }

  lemma FlattenOne(s: seq<byte>)
    ensures Flatten([s]) == s
  {
    var one := [s];
    assert one[..0] == [];
    assert Flatten(one) == Flatten(one[..0]) + s;
  }

  /** How many chunks there are and how long each is, in unsquashfs's terms. */
  lemma {:induction false} ChunkSizes(data: seq<byte>, block: nat, i: nat)
    requires block > 0 && i < |Chunks(data, block)|
    ensures |Chunks(data, block)| == Quotient(|data| + block - 1, block)
    ensures |Chunks(data, block)[i]| == if i == Quotient(|data|, block) then Rest(|data|, block) else block
    ensures Rest(|data|, block) != 0 ==> |Chunks(data, block)| == Quotient(|data|, block) + 1
    decreases |data|
  {
    var n := |data|;
    if n <= block {
      Divides(n + block - 1, 1, n - 1, block);
      if n == block {
        Divides(n, 1, 0, block);
      } else {
        Divides(n, 0, n, block);
      }
    } else {
      DivStep(n, block);
      DivStep(n + block - 1, block);
      ChunkSizes(data[block..], block, if i > 0 then i - 1 else 0);
      DivMod(n - block, block);
      if i == 0 && n / block == 0 {
        DivMod(n, block);
      }
    }
  }

  lemma NoChunks(block: nat)
    requires block > 0
    ensures Quotient(0, block) == 0 && Quotient(block - 1, block) == 0 && Rest(0, block) == 0
  {
    Divides(0, 0, 0, block);
    Divides(block - 1, 0, block - 1, block);
  }

  // ---------- the image ----------

  /** The finished output: the disk and the fragment table. */
  datatype Image = Image(disk: Disk, table: map<nat, Fragments.Row>)

  /** The stored blocks lie one behind the other; blocks left out take no room. */
  ghost predicate StoredAt(disk: Disk, start: int, stored: seq<seq<byte>>)
    decreases |stored|
  {
    stored == [] || (OnDisk(disk, start, stored[0]) && StoredAt(disk, start + |stored[0]|, stored[1..]))
  }

  /** The tail lies at its offset in a fragment that the table leads to. */
  ghost predicate TailIn(fp: Fragments.Params, img: Image, tail: seq<byte>, place: (nat, nat), content: seq<byte>)
  {
    place.0 in img.table && |content| <= fp.block &&
    OnDisk(img.disk, img.table[place.0].start, Mangle(Fragments.PackerOf(fp, place.0), content).data) &&
    img.table[place.0].word == DataWord(Mangle(Fragments.PackerOf(fp, place.0), content)) &&
    place.1 + |tail| <= |content| && content[place.1..place.1 + |tail|] == tail
  }

  ghost predicate TailAt(fp: Fragments.Params, img: Image, tail: seq<byte>, place: Option<(nat, nat)>)
  {
    if tail == [] then place.None? else place.Some? && exists content :: TailIn(fp, img, tail, place.value, content)
  }

  /** The image holds a laid out file. */
  ghost predicate FileAt(fp: Fragments.Params, img: Image, f: Laid, start: int, place: Option<(nat, nat)>)
  {
    StoredAt(img.disk, start, f.stored) && TailAt(fp, img, f.tail, place)
  }

  function NonEmpty(stored: seq<seq<byte>>): seq<seq<byte>>
  {
    if stored == [] then [] else (if stored[0] == [] then [] else [stored[0]]) + NonEmpty(stored[1..])
  }

  /** What the pipeline guarantees at its end is what the image must hold. */
  lemma {:induction false} PipelineStores(disk: Disk, f: File, k: nat, stored: seq<seq<byte>>)
    requires k <= |f.blocks| && f.blocks[k..] == NonEmpty(stored)
    requires forall j :: 0 <= j < |f.blocks| ==> OnDisk(disk, Address(f, j), f.blocks[j])
    ensures StoredAt(disk, Address(f, k), stored)
    decreases |stored|
  {
    hide OnDisk;
    if stored != [] {
      if stored[0] == [] {
        assert OnDisk(disk, Address(f, k), stored[0]) by { NothingOnDisk(disk, Address(f, k)); }
        PipelineStores(disk, f, k, stored[1..]);
      } else {
        assert f.blocks[k..][0] == stored[0] && f.blocks[k + 1..] == f.blocks[k..][1..];
        PipelineStores(disk, f, k + 1, stored[1..]);
      }
    }
  }

  lemma NothingOnDisk(disk: Disk, a: int)
    ensures OnDisk(disk, a, [])
  {
  }

  lemma PipelineTails(p: Fragments.Params, t: State, x: Fragments.Tail)
    requires FragmentStored(p, t, x.n) && Fragments.TailOk(t.fr, x) && |t.fr.content[x.n]| <= p.block && x.data != []
    ensures TailAt(p, Image(t.c.disk, t.fr.table), x.data, Some((x.n, x.offset)))
  {
    hide OnDisk, Mangle;
    assert TailIn(p, Image(t.c.disk, t.fr.table), x.data, (x.n, x.offset), t.fr.content[x.n]);
  }

  /** The pipeline has come to its end: nothing open, outstanding, queued or unfinished. */
  ghost predicate AtEnd(t: State)
  {
    t.cur.None? && t.c.queue == [] && t.c.held == [] && t.fr.outstanding == 0 && Closed(t.fr)
  }

  /** Where the k-th recorded tail is. */
  function PlaceOf(t: State, k: Option<nat>): Option<(nat, nat)>
    requires k.Some? ==> k.value < |t.fr.tails|
  {
    if k.None? then None else Some((t.fr.tails[k.value].n, t.fr.tails[k.value].offset))
  }

  /** The run has stored a laid out file: its blocks, if it has any, as one of the files of the
      pipeline, its tail, if it has one, as the k-th of the recorded tails. */
  ghost predicate StoredBy(t: State, f: Laid, start: int, k: Option<nat>)
  {
    (NonEmpty(f.stored) != [] ==> File(start, NonEmpty(f.stored)) in t.files) &&
    if f.tail == [] then k.None? else k.Some? && k.value < |t.fr.tails| && t.fr.tails[k.value].data == f.tail
  }

  /** After every run that has come to its end, the image holds every file it has stored, one
      that is only a fragment or only holes included. */
  lemma ImageHoldsFile(p: Fragments.Params, s: State, steps: seq<Step>, f: Laid, start: int, k: Option<nat>)
    requires Reachable(p, s, steps) && AtEnd(Pipeline.After(p, s, steps)) &&
             StoredBy(Pipeline.After(p, s, steps), f, start, k)
    ensures var t := Pipeline.After(p, s, steps);
            FileAt(p, Image(t.c.disk, t.fr.table), f, start, PlaceOf(t, k))
  {
    hide Reachable, Pipeline.After, Inv, ExtInv, OnDisk, StoredAt, Length, FragmentStored, TailIn;
    assert Legal(p, s, steps) by { Runs(p, s, steps); }
    AllOnDisk(p, s, steps);
    Reached(p, s, steps);
    var t := Pipeline.After(p, s, steps);
    var g := File(start, NonEmpty(f.stored));
    if g.blocks != [] {
      var i :| 0 <= i < |t.files| && t.files[i] == g;
      assert forall j :: 0 <= j < |g.blocks| ==> OnDisk(t.c.disk, Address(t.files[i], j), t.files[i].blocks[j]);
    }
    assert g.blocks[0..] == g.blocks;
    PipelineStores(t.c.disk, g, 0, f.stored);
    assert Address(g, 0) == g.start by { NoLength(g); }
    if f.tail != [] {
      TailKnown(p, t, k.value);
      PipelineTails(p, t, t.fr.tails[k.value]);
    }
  }

  lemma Runs(p: Fragments.Params, s: State, steps: seq<Step>)
    requires Reachable(p, s, steps)
    ensures Legal(p, s, steps)
  {
  }

  lemma NoLength(g: File)
    ensures Address(g, 0) == g.start
  {
  }

  lemma TailKnown(p: Fragments.Params, t: State, k: nat)
    requires PipeInv(p, t) && k < |t.fr.tails|
    ensures var x := t.fr.tails[k];
            Fragments.TailOk(t.fr, x) && x.n in t.fr.stage && |t.fr.content[x.n]| <= p.block
  {
    hide Inv, ExtInv;
    var x := t.fr.tails[k];
    assert Fragments.TailOk(t.fr, x);
    assert x.n in t.fr.stage;
    Fragments.FragmentHas(p, t.fr, FragTags(t.c.queue), t.c.live, x.n);
  }

  // ---------- reading back ----------

  /** A block or fragment through the cache of unsquashfs: read and decompressed. */
  function Fetch(codec: Codec, block: nat, disk: Disk, addr: int, word: nat): Option<seq<byte>>
  {
    match ReadDisk(disk, addr, DataWordSize(word))
    case None => None
    case Some(b) => Unmangle(codec, Stored(DataWordRaw(word), b), block)
  }

  lemma FetchBack(packer: Packer, block: nat, disk: Disk, addr: int, data: seq<byte>)
    requires Lossless(packer.codec) && |data| <= block <= 0x10_0000 && OnDisk(disk, addr, Mangle(packer, data).data)
    ensures Fetch(packer.codec, block, disk, addr, DataWord(Mangle(packer, data))) == Some(data)
    ensures data != [] ==> DataWord(Mangle(packer, data)) != 0
    ensures DataWordSize(DataWord(Mangle(packer, data))) == |Mangle(packer, data).data|
  {
    hide ReadDisk, OnDisk, Lossless, Unmangle, DataWord, DataWordSize, DataWordRaw;
    var st := Mangle(packer, data);
    DataWordDecodes(st);
    ReadDiskBack(disk, addr, st.data, |st.data|);
    assert st.data[..|st.data|] == st.data;
    assert st == Stored(st.raw, st.data);
    MangleRoundTrip(packer, data, block);
  }

  lemma FetchAlike(a: Codec, b: Codec, block: nat, disk: Disk, addr: int, word: nat)
    requires a.uncompress == b.uncompress
    ensures Fetch(a, block, disk, addr, word) == Fetch(b, block, disk, addr, word)
  {
  }

  /** A cache buffer is a block long. */
  function Padded(data: seq<byte>, block: nat): seq<byte>
  {
    if |data| < block then data + Zeros(block - |data|) else data
  }

  /** The length of block i. */
  function BlockLength(size: nat, block: nat, i: nat): (n: nat)
    requires block > 0
    ensures n <= block
  {
    DivMod(size, block);
    if i == Quotient(size, block) then Rest(size, block) else block
  }

  function BlockReq(c: Config, img: Image, size: nat, word: nat, i: nat, start: int): (r: Req)
    requires c.o.block > 0
    ensures ReqOk(r)
  {
    var n := BlockLength(size, c.o.block, i);
    if word == 0 then Hole(n) else
      match Fetch(c.packer.codec, c.o.block, img.disk, start, word)
      case None => Failed(n)
      case Some(data) => Bytes(Padded(data, c.o.block), 0, n)
  }

  function FragReq(c: Config, img: Image, d: Inode): (r: Req)
    ensures ReqOk(r)
  {
    if d.fragment !in img.table then Failed(d.fragBytes) else
      match Fetch(c.packer.codec, c.o.block, img.disk, img.table[d.fragment].start, img.table[d.fragment].word)
      case None => Failed(d.fragBytes)
      case Some(data) =>
        if d.offset + d.fragBytes <= |Padded(data, c.o.block)|
        then Bytes(Padded(data, c.o.block), d.offset, d.fragBytes)
        else Failed(d.fragBytes)
  }

  /** Where the next block lies. */
  function After(start: int, word: nat): int { if word == 0 then start else start + DataWordSize(word) }

  function BlockReqs(c: Config, img: Image, size: nat, words: seq<nat>, i: nat, start: int): (r: seq<Req>)
    requires c.o.block > 0 && i <= |words|
    ensures forall k :: 0 <= k < |r| ==> ReqOk(r[k])
    decreases |words| - i
  {
    if i == |words| then []
    else [BlockReq(c, img, size, words[i], i, start)] + BlockReqs(c, img, size, words, i + 1, After(start, words[i]))
  }

  function Reqs(c: Config, img: Image, d: Inode, words: seq<nat>): (r: seq<Req>)
    requires c.o.block > 0
    ensures forall k :: 0 <= k < |r| ==> ReqOk(r[k])
  {
    BlockReqs(c, img, d.data, words, 0, d.start) + if d.fragBytes != 0 then [FragReq(c, img, d)] else []
  }

  /** write_file of unsquashfs: queues the blocks and the fragment. */
  method QueueBlocks(c: Config, img: Image, d: Inode, words: seq<nat>) returns (reqs: seq<Req>)
    requires c.o.block > 0
    ensures reqs == Reqs(c, img, d, words)
  {
    hide BlockReq, FragReq, After;
    var start: int := d.start;
    reqs := [];
    for i := 0 to |words|
      invariant reqs + BlockReqs(c, img, d.data, words, i, start) == BlockReqs(c, img, d.data, words, 0, d.start)
    {
      ghost var rest := BlockReqs(c, img, d.data, words, i + 1, After(start, words[i]));
      reqs := reqs + [BlockReq(c, img, d.data, words[i], i, start)];
      start := After(start, words[i]);
    }
    if d.fragBytes != 0 {
      reqs := reqs + [FragReq(c, img, d)];
    }
  }

  // ---------- the round trip ----------

  lemma AllZeroIs(s: seq<byte>)
    requires AllZero(s)
    ensures s == Zeros(|s|)
  {
  }

  /** One block of the body. */
  lemma BlockBack(c: Config, img: Image, data: seq<byte>, i: nat, start: int)
    requires ConfigOk(c) && i < |Chunks(data, c.o.block)|
    requires OnDisk(img.disk, start, StoredOf(c, Chunks(data, c.o.block)[i]))
    ensures var chunk := Chunks(data, c.o.block)[i];
            var r := BlockReq(c, img, |data|, WordOf(c, chunk), i, start);
            !r.Failed? && Meaning(r) == chunk && After(start, WordOf(c, chunk)) == start + |StoredOf(c, chunk)|
  {
    hide Fetch, Lossless, DataWord, DataWordSize, OnDisk;
    var chunk := Chunks(data, c.o.block)[i];
    ChunkSizes(data, c.o.block, i);
    if LeftOut(c, chunk) {
      AllZeroIs(chunk);
    } else {
      FetchBack(c.packer, c.o.block, img.disk, start, chunk);
      assert Padded(chunk, c.o.block)[0..|chunk|] == chunk;
    }
  }

  lemma StoredNext(disk: Disk, start: int, stored: seq<seq<byte>>, i: nat)
    requires i < |stored| && StoredAt(disk, start, stored[i..])
    ensures OnDisk(disk, start, stored[i]) && StoredAt(disk, start + |stored[i]|, stored[i + 1..])
  {
    DropNext(stored, i);
  }

  lemma ReqsNext(c: Config, img: Image, size: nat, words: seq<nat>, i: nat, start: int, chunk: seq<byte>,
                 rest: seq<byte>)
    requires c.o.block > 0 && i < |words|
    requires var r := BlockReq(c, img, size, words[i], i, start);
             !r.Failed? && Meaning(r) == chunk
    requires var rs := BlockReqs(c, img, size, words, i + 1, After(start, words[i]));
             AllGood(rs) && Whole(rs) == rest
    ensures var rs := BlockReqs(c, img, size, words, i, start);
            AllGood(rs) && Whole(rs) == chunk + rest
  {
    hide BlockReq, After, Meaning, Whole;
    var first, rs := BlockReq(c, img, size, words[i], i, start),
      BlockReqs(c, img, size, words, i + 1, After(start, words[i]));
    WholeOne(first);
    WholeAppend([first], rs);
  }

  lemma {:induction false} BlocksBack(c: Config, img: Image, data: seq<byte>, n: nat, i: nat, start: int)
    requires ConfigOk(c) && n <= |Chunks(data, c.o.block)| && i <= n
    requires StoredAt(img.disk, start, StoredsOf(c, Chunks(data, c.o.block)[..n])[i..])
    ensures var chunks := Chunks(data, c.o.block);
            var rs := BlockReqs(c, img, |data|, WordsOf(c, chunks[..n]), i, start);
            AllGood(rs) && Whole(rs) == Flatten(chunks[i..n])
    decreases n - i
  {
    hide BlockReq, StoredOf, WordOf, After, Meaning, OnDisk, Chunks, ConfigOk, StoredAt, StoredsOf, WordsOf, Flatten;
    assert c.o.block > 0 by { BlockIsSome(c); }
    var chunks := Chunks(data, c.o.block);
    var words, stored := WordsOf(c, chunks[..n]), StoredsOf(c, chunks[..n]);
    if i < n {
      assert chunks[..n][i] == chunks[i] && stored[i] == StoredOf(c, chunks[i]) && words[i] == WordOf(c, chunks[i]);
      StoredNext(img.disk, start, stored, i);
      BlockBack(c, img, data, i, start);
      BlocksBack(c, img, data, n, i + 1, After(start, words[i]));
      ReqsNext(c, img, |data|, words, i, start, chunks[i], Flatten(chunks[i + 1..n]));
      FlattenFirst(chunks, i, n);
    } else {
      assert chunks[n..n] == [];
      NothingThere(c, img, |data|, words, start);
    }
  }

  lemma NothingThere(c: Config, img: Image, size: nat, words: seq<nat>, start: int)
    requires c.o.block > 0
    ensures BlockReqs(c, img, size, words, |words|, start) == [] && AllGood([]) && Whole([]) == [] &&
            Flatten<byte>([]) == []
  {
  }

  lemma FlattenFirst(chunks: seq<seq<byte>>, i: nat, n: nat)
    requires i < n <= |chunks|
    ensures Flatten(chunks[i..n]) == chunks[i] + Flatten(chunks[i + 1..n])
  {
    assert chunks[i..n] == [chunks[i]] + chunks[i + 1..n];
    FlattenAppend([chunks[i]], chunks[i + 1..n]);
    FlattenOne(chunks[i]);
  }

  lemma BlockIsSome(c: Config)
    requires ConfigOk(c)
    ensures c.o.block > 0
  {
  }

  lemma WholeOne(r: Req)
    requires ReqOk(r) && !r.Failed?
    ensures AllGood([r]) && Whole([r]) == Meaning(r)
  {
    var one := [r];
    assert one[..0] == [];
    assert Whole(one) == Whole(one[..0]) + Meaning(one[0]);
  }

  /** The request create_inode gets for a file. */
  ghost predicate Describes(r: Request, f: Laid, start: nat, place: Option<(nat, nat)>)
  {
    Fits(r) && r.size == f.fileSize && r.words == f.words && r.start == start && r.fragment == place
  }

  /** The inode's block count and tail length are those of the layout. */
  lemma CountsBack(c: Config, data: seq<byte>)
    requires ConfigOk(c)
    ensures var f := LaidOut(c, data);
            var frag := if f.tail == [] then INVALID_FRAG else 0;
            |f.words| == BlockCount(|data|, frag, c.o.block) && |f.tail| == FragBytes(|data|, frag, c.o.block)
  {
    hide LeftOut, WordOf, StoredOf, Lossless, Quotient, Rest;
    var chunks := Chunks(data, c.o.block);
    if data == [] {
      NoChunks(c.o.block);
    } else {
      ChunkSizes(data, c.o.block, |chunks| - 1);
      if HasTail(c, data) {
        R.FragmentHasRest(c.o, |data|);
        RestIs(|data|, c.o.block);
      }
    }
  }

  lemma RestIs(x: nat, block: nat)
    requires block > 0
    ensures Rest(x, block) == x % block
  {
  }

  lemma TailBack(c: Config, fp: Fragments.Params, img: Image, data: seq<byte>, d: Inode, place: (nat, nat))
    requires ConfigOk(c) && Fragments.ParamsOk(fp) && fp.block == c.o.block &&
             fp.packer.codec.uncompress == c.packer.codec.uncompress
    requires var f := LaidOut(c, data);
             f.tail != [] && TailAt(fp, img, f.tail, Some(place)) && d.fragment == place.0 && d.offset == place.1 &&
               d.fragBytes == |f.tail|
    ensures var r := FragReq(c, img, d);
            !r.Failed? && Meaning(r) == LaidOut(c, data).tail
  {
    hide Fetch, Lossless, DataWord, DataWordSize, OnDisk, Mangle, LaidOut;
    var tail := LaidOut(c, data).tail;
    var content :| TailIn(fp, img, tail, place, content);
    var packer := Fragments.PackerOf(fp, place.0);
    assert Fragments.Readable(fp, place.0);
    FetchBack(packer, fp.block, img.disk, img.table[place.0].start, content);
    FetchAlike(packer.codec, c.packer.codec, fp.block, img.disk, img.table[place.0].start, img.table[place.0].word);
    var whole := Padded(content, c.o.block);
    assert whole[place.1..place.1 + |tail|] == content[place.1..place.1 + |tail|];
  }

  /** The image and the inode agree on a laid out file, and the compressors are lossless. */
  ghost predicate Recorded(c: Config, fp: Fragments.Params, img: Image, f: Laid, r: Request, start: nat,
                           place: Option<(nat, nat)>)
  {
    ConfigOk(c) && Fragments.ParamsOk(fp) && fp.block == c.o.block &&
      fp.packer.codec.uncompress == c.packer.codec.uncompress &&
    FileAt(fp, img, f, start, place) && Describes(r, f, start, place)
  }

  /** What the decoded inode says about a laid out file. */
  ghost predicate InodeOf(d: Inode, f: Laid, start: nat, place: Option<(nat, nat)>)
  {
    d.data == f.fileSize && d.blocks == |f.words| && d.fragBytes == |f.tail| && d.start == start &&
    (place.Some? ==> d.fragment == place.value.0 && d.offset == place.value.1)
  }

  lemma InodeBack(c: Config, fp: Fragments.Params, img: Image, data: seq<byte>, r: Request, start: nat,
                  place: Option<(nat, nat)>)
    requires c.o.block > 0 && Recorded(c, fp, img, LaidOut(c, data), r, start, place)
    ensures Decode(Encode(r), c.o.block).Some?
    ensures InodeOf(Decode(Encode(r), c.o.block).value, LaidOut(c, data), start, place)
  {
    hide Encode, Decode, StoredAt, BlockCount, FragBytes, NeedsLong, Clamped, LaidOut, Lossless;
    assert LaidOut(c, data).fileSize == |data| by { LaidSize(c, data); }
    DecodeBack(r, c.o.block);
    CountsBack(c, data);
    FragCase(r.size, FragIndex(r), c.o.block);
  }

  lemma LaidSize(c: Config, data: seq<byte>)
    requires c.o.block > 0
    ensures LaidOut(c, data).fileSize == |data|
  {
  }

  lemma BodyIs(c: Config, data: seq<byte>)
    requires c.o.block > 0
    ensures var f, chunks := LaidOut(c, data), Chunks(data, c.o.block);
            var n := |f.words|;
            n <= |chunks| && f.words == WordsOf(c, chunks[..n]) && f.stored == StoredsOf(c, chunks[..n]) &&
            data == Flatten(chunks[0..n]) + f.tail
  {
    hide WordsOf, StoredsOf, HasTail, Chunks, Flatten;
    var chunks := Chunks(data, c.o.block);
    BodyPrefix(c, data);
    ChunksJoin(data, c.o.block);
    assert |WordsOf(c, Body(c, data))| == |Body(c, data)|;
  }

  lemma BodyPrefix(c: Config, data: seq<byte>)
    requires c.o.block > 0
    ensures var chunks, body := Chunks(data, c.o.block), Body(c, data);
            |body| <= |chunks| && body == chunks[..|body|] &&
            Flatten(chunks) == Flatten(chunks[0..|body|]) + LaidOut(c, data).tail
  {
    hide WordsOf, StoredsOf, Chunks, LeftOut, R.IsFragment, Flatten;
    var chunks := Chunks(data, c.o.block);
    if HasTail(c, data) {
      FlattenLast(chunks);
    } else {
      assert chunks[0..|chunks|] == chunks;
      assert Flatten(chunks) + [] == Flatten(chunks);
    }
  }

  lemma ReqsBack(c: Config, fp: Fragments.Params, img: Image, data: seq<byte>, d: Inode, start: nat,
                 place: Option<(nat, nat)>)
    requires ConfigOk(c) && Fragments.ParamsOk(fp) && fp.block == c.o.block &&
             fp.packer.codec.uncompress == c.packer.codec.uncompress
    requires FileAt(fp, img, LaidOut(c, data), start, place) && InodeOf(d, LaidOut(c, data), start, place)
    ensures var rs := Reqs(c, img, d, LaidOut(c, data).words);
            AllGood(rs) && Whole(rs) == data
  {
    hide BlockReqs, FragReq, StoredAt, WordOf, StoredOf, LaidOut, ConfigOk, Fragments.ParamsOk, Whole, Meaning;
    assert c.o.block > 0 by { BlockIsSome(c); }
    var f, chunks := LaidOut(c, data), Chunks(data, c.o.block);
    var n := |f.words|;
    LaidSize(c, data);
    BodyIs(c, data);
    assert StoredsOf(c, chunks[..n])[0..] == f.stored;
    BlocksBack(c, img, data, n, 0, start);
    var rs := BlockReqs(c, img, |data|, f.words, 0, start);
    if f.tail == [] {
      assert rs + [] == rs;
      assert Flatten(chunks[0..n]) + [] == Flatten(chunks[0..n]);
    } else {
      TailBack(c, fp, img, data, d, place.value);
      WholeOne(FragReq(c, img, d));
      WholeAppend(rs, [FragReq(c, img, d)]);
    }
  }

  /** For every file, every policy and every image that holds its layout: decoding the inode
      and queueing its blocks gives requests that stand for exactly the file's bytes. */
  lemma FileRoundTrip(c: Config, fp: Fragments.Params, img: Image, data: seq<byte>, r: Request, start: nat,
                      place: Option<(nat, nat)>)
    requires c.o.block > 0 && Recorded(c, fp, img, LaidOut(c, data), r, start, place)
    ensures Decode(Encode(r), c.o.block).Some?
    ensures var d := Decode(Encode(r), c.o.block).value;
            d.data == |data| && d.blocks == |r.words| && AllGood(Reqs(c, img, d, r.words)) &&
              Whole(Reqs(c, img, d, r.words)) == data
  {
    hide Encode, Decode, FileAt, Reqs, LaidOut, Whole, AllGood;
    InodeBack(c, fp, img, data, r, start, place);
    LaidSize(c, data);
    ReqsBack(c, fp, img, data, Decode(Encode(r), c.o.block).value, start, place);
  }

  /** Which fragment it is does not matter for the counts. */
  lemma FragCase(size: nat, frag: nat, block: nat)
    requires block > 0
    ensures frag != INVALID_FRAG ==>
              BlockCount(size, frag, block) == BlockCount(size, 0, block) &&
              FragBytes(size, frag, block) == FragBytes(size, 0, block)
  {
  }

  lemma FlattenLast(chunks: seq<seq<byte>>)
    requires chunks != []
    ensures var n := |chunks| - 1;
            Flatten(chunks) == Flatten(chunks[0..n]) + chunks[n]
  {
    assert chunks[0..|chunks| - 1] == chunks[..|chunks| - 1];
  }

  /** What is recorded of a file. */
  function LaidOf(e: FileInfo): Laid { Laid(e.fileSize, e.words, e.stored, e.fragment) }

  /** A duplicate's inode points at the blocks and the fragment of the file found; reading
      it back gives the duplicate's own bytes. */
  lemma DuplicateRoundTrip(c: Config, fp: Fragments.Params, img: Image, data: seq<byte>, e: FileInfo, r: Request,
                           start: nat, place: Option<(nat, nat)>)
    requires c.o.block > 0 && SameFile(e, LaidOut(c, data)) && Recorded(c, fp, img, LaidOf(e), r, start, place)
    ensures Decode(Encode(r), c.o.block).Some?
    ensures var d := Decode(Encode(r), c.o.block).value;
            d.data == |data| && d.blocks == |r.words| && AllGood(Reqs(c, img, d, r.words)) &&
              Whole(Reqs(c, img, d, r.words)) == data
  {
    hide LaidOut, Encode, Decode, Recorded, Reqs, Whole, AllGood;
    FileRoundTrip(c, fp, img, data, r, start, place);
  }

  /** read_block_list */
  method ReadBlockList(s: seq<byte>, list: nat, blocks: nat, ghost r: Request) returns (words: seq<nat>)
    requires Fits(r) && s == Encode(r) && list == (if NeedsLong(r) then 56 else 32) && blocks == |r.words|
    ensures words == r.words
  {
    hide Encode, NeedsLong;
    words := [];
    for i := 0 to blocks
      invariant words == r.words[..i]
    {
      WordBack(r, i);
      words := words + [Get(s, list + 4 * i, 4)];
    }
  }

  /** unsquashfs on one regular file, from the inode's bytes to the file written. */
  method ExtractFile(c: Config, img: Image, s: seq<byte>, ghost fp: Fragments.Params, ghost data: seq<byte>,
                     ghost r: Request, ghost start: nat, ghost place: Option<(nat, nat)>)
    returns (file: OutFile, failed: bool)
    requires c.o.block > 0 && Recorded(c, fp, img, LaidOut(c, data), r, start, place) && s == Encode(r)
    ensures !failed && file.data == data
  {
    hide LaidOut, Encode, Decode, FileAt, Reqs, Whole;
    FileRoundTrip(c, fp, img, data, r, start, place);
    DecodeBack(r, c.o.block);
    var d := Decode(s, c.o.block).value;
    var words := ReadBlockList(s, d.list, d.blocks, r);
    var reqs := QueueBlocks(c, img, d, words);
    var writer := new Writer(c.o.block);
    file, failed := writer.WriteFile(reqs, d.data, d.sparse);
  }

  // ---------- from a file to the extracted file ----------

  /** For every file, every policy and every run of all threads that has come to its end and has
      stored the file's layout: unsquashfs writes the file. */
  method StoreAndExtract(c: Config, img: Image, inode: seq<byte>, ghost data: seq<byte>, ghost r: Request,
                         ghost fp: Fragments.Params, ghost s: State, ghost steps: seq<Step>, ghost start: nat,
                         ghost k: Option<nat>)
    returns (file: OutFile, failed: bool)
    requires ConfigOk(c) && fp.block == c.o.block && fp.packer.codec.uncompress == c.packer.codec.uncompress
    requires Reachable(fp, s, steps) && AtEnd(Pipeline.After(fp, s, steps))
    requires var t := Pipeline.After(fp, s, steps);
             && img == Image(t.c.disk, t.fr.table) && StoredBy(t, LaidOut(c, data), start, k)
             && Describes(r, LaidOut(c, data), start, PlaceOf(t, k)) && inode == Encode(r)
    ensures !failed && file.data == data
  {
    hide LaidOut, Encode, FileAt, Reachable, Pipeline.After, AtEnd, PlaceOf, Fragments.ParamsOk;
    Runs(fp, s, steps);
    ImageHoldsFile(fp, s, steps, LaidOut(c, data), start, k);
    SoundParams(fp, s, steps);
    file, failed := ExtractFile(c, img, inode, fp, data, r, start, PlaceOf(Pipeline.After(fp, s, steps), k));
  }

  lemma SoundParams(p: Fragments.Params, s: State, steps: seq<Step>)
    requires Reachable(p, s, steps)
    ensures Fragments.ParamsOk(p)
  {
  }

  /** A file that has been stored before: the search finds a record exactly when there is one, and
      the inode made from it extracts to the file. */
  method FindAndExtract(c: Config, f: Laid, chain: seq<FileInfo>, img: Image, at: FileInfo -> (nat, Option<(nat, nat)>),
                        r0: Request, ghost data: seq<byte>, ghost fp: Fragments.Params)
    returns (hit: Option<FileInfo>, out: Option<OutFile>)
    requires ConfigOk(c) && Fragments.ParamsOk(fp) && fp.block == c.o.block && AllValid(chain) && f == LaidOut(c, data)
    requires fp.packer.codec.uncompress == c.packer.codec.uncompress
    requires forall e :: e in chain ==> FileAt(fp, img, LaidOf(e), at(e).0, at(e).1) && Fits(RequestFor(r0, e, at))
    modifies chain
    ensures hit.Some? <==> exists e :: e in chain && SameFile(e, f)
    ensures hit.Some? ==> out.Some? && out.value.data == data
  {
    hide Encode, FileAt, Fragments.ParamsOk, LaidOut;
    LaidBlocksOk(c, data);
    var tailSum := GetChecksum(f.tail, 0);
    hit := Duplicate(chain, f, if f.tail == [] then 0 else tailSum);
    if hit.Some? {
      var r := RequestFor(r0, hit.value, at);
      var file, failed := ExtractFile(c, img, Encode(r), fp, data, r, at(hit.value).0, at(hit.value).1);
      out := if failed then None else Some(file);
    } else {
      out := None;
    }
  }

  /** The inode of a duplicate: its owner's fields with the blocks and fragment of the record. */
  function RequestFor(r: Request, e: FileInfo, at: FileInfo -> (nat, Option<(nat, nat)>)): Request
  {
    r.(size := e.fileSize, words := e.words, start := at(e).0, fragment := at(e).1)
  }

  // ---------- what the searches compare ----------

  /** The search of DupSearch compares the fields of a record. In the program a thread compares what
      get_fragment has given it: after every run that is the record's tail, byte for byte and in its
      checksum. */
  lemma TailCompared(p: Fragments.Params, s: State, steps: seq<Step>, t: nat, i: nat, e: FileInfo, data: seq<byte>)
    requires Reachable(p, s, steps)
    requires var f := Pipeline.After(p, s, steps).fr;
             && t in f.gets && f.gets[t].Got? && i < |f.tails| && f.tails[i].n == f.gets[t].n
             && f.tails[i].data == e.fragment
    ensures var f := Pipeline.After(p, s, steps).fr;
            var g, x := f.gets[t], f.tails[i];
            && g.n in Fragments.CacheOf(f, g.home)
            && var buffer := Fragments.CacheOf(f, g.home)[g.n].data;
               && x.offset + |e.fragment| <= |buffer|
               && var fetched := buffer[x.offset..x.offset + |e.fragment|];
                  Sum(fetched, 0) == Sum(e.fragment, 0) && (fetched == data <==> e.fragment == data)
  {
    hide Reachable, Pipeline.After, Sum;
    Runs(p, s, steps);
    EveryFragmentReturns(p, s, steps, t, i);
  }

  /** The bytes of the first n stored blocks, read through the cache or from the disk one after the
      other, skipping blocks of size 0. */
  ghost function BlocksRead(c: Cache, start: int, stored: seq<seq<byte>>, n: nat): Option<seq<seq<byte>>>
    requires n <= |stored|
  {
    if n == 0 then Some([]) else
    match BlocksRead(c, start, stored, n - 1)
    case None => None
    case Some(front) =>
      var size := |stored[n - 1]|;
      if size == 0 then Some(front + [[]]) else
      match WriteCache.ReadBlock(c, start + |Flatten(stored[..n - 1])|, size)
      case None => None
      case Some(b) => Some(front + [b])
  }

  lemma {:induction false} StoredPlaces(stored: seq<seq<byte>>, n: nat)
    requires n <= |stored|
    ensures NonEmpty(stored[..n]) <= NonEmpty(stored)
    ensures Length(NonEmpty(stored), |NonEmpty(stored[..n])|) == |Flatten(stored[..n])|
    ensures n < |stored| && stored[n] != [] ==>
              |NonEmpty(stored[..n])| < |NonEmpty(stored)| && NonEmpty(stored)[|NonEmpty(stored[..n])|] == stored[n]
    decreases n
  {
    NonEmptyAppend(stored[..n], stored[n..]);
    assert stored[..n] + stored[n..] == stored;
    if n < |stored| {
      DropNext(stored, n);
    }
    if n > 0 {
      StoredPlaces(stored, n - 1);
      NonEmptyAppend(stored[..n - 1], [stored[n - 1]]);
      TakeNext(stored, n - 1);
      TakeTake(stored, n - 1, n);
      NonEmptyOne(stored[n - 1]);
    } else {
      assert stored[..0] == [];
    }
  }

  lemma NonEmptyOne(b: seq<byte>)
    ensures NonEmpty([b]) == if b == [] then [] else [b]
  {
    assert [b][1..] == [];
  }

  lemma {:induction false} NonEmptyAppend(a: seq<seq<byte>>, b: seq<seq<byte>>)
    ensures NonEmpty(a + b) == NonEmpty(a) + NonEmpty(b)
    decreases |a|
  {
    if a == [] {
      assert a + b == b;
    } else {
      assert (a + b)[1..] == a[1..] + b;
      NonEmptyAppend(a[1..], b);
      Assoc(if a[0] == [] then [] else [a[0]], NonEmpty(a[1..]), NonEmpty(b));
    }
  }

  /** The same for blocks: what main reads for a recorded file is what the record says. */
  lemma {:induction false} BlocksCompared(p: Fragments.Params, s: State, steps: seq<Step>, start: int,
                                          stored: seq<seq<byte>>, n: nat)
    requires Reachable(p, s, steps) && n <= |stored|
    requires Legal(p, s, steps) && File(start, NonEmpty(stored)) in Pipeline.After(p, s, steps).files
    ensures BlocksRead(Pipeline.After(p, s, steps).c, start, stored, n) == Some(stored[..n])
    decreases n
  {
    hide Reachable, Pipeline.After, WriteCache.ReadBlock, NonEmpty, Flatten, Legal, Length;
    if n > 0 {
      BlocksCompared(p, s, steps, start, stored, n - 1);
      StoredPlaces(stored, n - 1);
      TakeNext(stored, n - 1);
      if stored[n - 1] != [] {
        var f := File(start, NonEmpty(stored));
        EveryBlockReads(p, s, steps, f, |NonEmpty(stored[..n - 1])|);
      }
    }
  }
}
