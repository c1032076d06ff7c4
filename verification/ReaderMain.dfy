/** The reader thread and the main thread in step: the reader numbers the buffers it emits,
    other threads compress them in any order, and main takes them by number. For every file
    main must take exactly the buffers the reader emitted for it. */
module ReaderMain {
  import opened Bytes
  import opened Division

  /** Block size and the fragment options of a file. */
  datatype Options = Options(block: nat, noFragments: bool, alwaysFragments: bool, otherCompression: bool)

  /** is_fragment */
  predicate IsFragment(o: Options, size: nat)
    requires o.block > 0
  {
    !o.otherCompression && !o.noFragments && size != 0 && (size < o.block || (o.alwaysFragments && size % o.block != 0))
  }

  /** fileSize is -1 while the size of a process's output is not known; error is 0, 1 for a
      failure or 2 for a file that changed size. */
  datatype Buffer = Buffer(sequence: nat, size: nat, fileSize: int, error: nat, fragment: bool, cbyte: nat)

  function Blocks(o: Options, size: nat): nat
    requires o.block > 0
  {
    (size + o.block - 1) / o.block
  }

  // ---------- what reading a file can yield ----------

  /** One attempt at a file: its size when it was examined, whether it opens, what each read
      of a block gives (-1 for an error), what reading one byte past the end gives, and the
      size found when it is examined again. */
  datatype Try = Try(size: nat, opens: bool, got: nat -> int, extra: int, again: Option<nat>)

  ghost predicate TryOk(o: Options, t: Try)
  {
    forall i: nat :: -1 <= t.got(i) <= o.block
  }

  datatype Outcome = Finished | Retry | Failed

  /** How many reads an attempt makes if nothing goes wrong. */
  function Needed(o: Options, t: Try): nat
    requires o.block > 0
  {
    if Blocks(o, t.size) <= 1 then 1 else Blocks(o, t.size)
  }

  function Total(t: Try, n: nat): int
  {
    if n == 0 then 0 else Total(t, n - 1) + t.got(n - 1)
  }

  /** The blocks read before something went wrong, at most all but the last. */
  function Good(o: Options, t: Try, i: nat): (k: nat)
    requires o.block > 0 && i < Needed(o, t)
    ensures i <= k < Needed(o, t)
    decreases Needed(o, t) - i
  {
    if i + 1 < Needed(o, t) && t.got(i) == o.block then Good(o, t, i + 1) else i
  }

  function Restat(t: Try): Outcome
  {
    if t.again.Some? && t.again.value != t.size then Retry else Failed
  }

  function Result(o: Options, t: Try): Outcome
    requires o.block > 0
  {
    if !t.opens then Failed else
      var k := Good(o, t, 0);
      if t.got(k) == -1 then Failed
      else if k + 1 < Needed(o, t) || Total(t, k + 1) != t.size then Restat(t)
      else if t.size != 0 && t.size % o.block == 0 && t.extra != 0 then (if t.extra == -1 then Failed else Restat(t))
      else Finished
  }

  /** The buffers of one attempt, without their numbers: the blocks, then the tail or a
      buffer that reports the error. */
  datatype Shape = Plain(fileSize: int) | Last(fileSize: int, fragment: bool) | Error(error: nat)

  function PlainRun(size: int, n: nat): (r: seq<Shape>)
    ensures |r| == n && forall i :: 0 <= i < n ==> r[i] == Plain(size)
  {
    if n == 0 then [] else PlainRun(size, n - 1) + [Plain(size)]
  }

  function TryShapes(o: Options, t: Try): seq<Shape>
    requires o.block > 0
  {
    match Result(o, t)
    case Finished => PlainRun(t.size, Needed(o, t) - 1) + [Last(t.size, IsFragment(o, t.size))]
    case Retry => PlainRun(t.size, Good(o, t, 0)) + [Error(2)]
    case Failed => PlainRun(t.size, if t.opens then Good(o, t, 0) else 0) + [Error(1)]
  }

  /** All attempts at a file; every one but the last finds that the size has changed. */
  ghost predicate TriesOk(o: Options, ts: seq<Try>)
  {
    o.block > 0 && ts != [] && (forall i :: 0 <= i < |ts| ==> TryOk(o, ts[i])) &&
    (forall i :: 0 <= i < |ts| - 1 ==> Result(o, ts[i]) == Retry && ts[i].again == Some(ts[i + 1].size)) &&
    Result(o, ts[|ts| - 1]) != Retry
  }

  function FileShapes(o: Options, ts: seq<Try>): seq<Shape>
    requires o.block > 0
  {
    if ts == [] then [] else TryShapes(o, ts[0]) + FileShapes(o, ts[1..])
  }

  /** A process whose output becomes a file: whether it starts, what each read gives (0 at
      the end), and whether it exits well. */
  datatype Process = Process(starts: bool, got: nat -> int, chunks: nat, exitsWell: bool)

  ghost predicate ProcessOk(o: Options, p: Process)
  {
    o.block > 0 && (forall i :: 0 <= i < p.chunks ==> 0 < p.got(i) <= o.block) && -1 <= p.got(p.chunks) <= 0
  }

  function Output(p: Process, n: nat): int
  {
    if n == 0 then 0 else Output(p, n - 1) + p.got(n - 1)
  }

  predicate Succeeds(p: Process) { p.starts && p.got(p.chunks) == 0 && p.exitsWell }

  function ProcessShapes(o: Options, p: Process): seq<Shape>
    requires ProcessOk(o, p)
  {
    if !p.starts then [Error(1)] else
      var n := if p.chunks == 0 then 0 else p.chunks - 1;
      OutputPositive(o, p, p.chunks);
      PlainRun(-1, n) +
      [if Succeeds(p) then Last(Output(p, p.chunks), IsFragment(o, Output(p, p.chunks))) else Error(1)]
  }

  lemma {:induction false} OutputPositive(o: Options, p: Process, n: nat)
    requires ProcessOk(o, p) && n <= p.chunks
    ensures 0 <= Output(p, n) && (n > 0 ==> Output(p, n) > 0) && (n == 1 ==> Output(p, n) <= o.block)
    decreases n
  {
    if n > 0 {
      OutputPositive(o, p, n - 1);
    }
  }

  // ---------- the reader ----------

  ghost predicate Shaped(b: Buffer, s: Shape)
  {
    match s
    case Plain(size) => b.fileSize == size && b.error == 0 && !b.fragment
    case Last(size, fragment) => b.fileSize == size && b.error == 0 && b.fragment == fragment &&
      (fragment ==> b.size > 0)
    case Error(e) => b.error == e
  }

  /** The buffers have these shapes and the numbers from `first` on. */
  ghost predicate Emitted(bs: seq<Buffer>, ss: seq<Shape>, first: nat)
  {
    |bs| == |ss| && forall i :: 0 <= i < |bs| ==> Shaped(bs[i], ss[i]) && bs[i].sequence == first + i
  }

  lemma EmittedAppend(a: seq<Buffer>, b: seq<Buffer>, s: seq<Shape>, t: seq<Shape>, first: nat)
    requires Emitted(a, s, first) && Emitted(b, t, first + |a|)
    ensures Emitted(a + b, s + t, first)
  {
  }

  class Reader {
    const o: Options
    var seqNo: nat
    var out: seq<Buffer>
    var read: set<nat>

    constructor (o: Options)
      ensures this.o == o && seqNo == 0 && out == [] && read == {}
    {
      this.o, seqNo, out, read := o, 0, [], {};
    }

    ghost predicate Valid()
      reads this
    {
      o.block > 0 && seqNo == |out|
    }

    /** What has been emitted since a point, in shape and number. */
    ghost predicate Since(before: seq<Buffer>, ss: seq<Shape>)
      reads this
    {
      before <= out && Emitted(out[|before|..], ss, |before|)
    }

    method Emit(b: Buffer)
      modifies this`out
      ensures out == old(out) + [b]
    {
      out := out + [b];
    }

    /** The error exits: a buffer that has its number is emitted as a report. */
    method Report(sequence: nat, outcome: Outcome)
      requires o.block > 0 && sequence == |out| && seqNo == sequence + 1 && outcome != Finished
      modifies this`out
      ensures Valid() && Since(old(out), [Error(if outcome == Retry then 2 else 1)])
    {
      Emit(Buffer(sequence, 0, 0, if outcome == Retry then 2 else 1, false, 0));
    }

    /** Reads blocks until one fails, one is short, or the last has been read. The number
        of the buffer in hand is taken but not used yet. */
    method ReadBlocks(t: Try) returns (sequence: nat, size: int, bytes: int, last: bool)
      requires Valid() && TryOk(o, t)
      modifies this`seqNo, this`out
      ensures var k := Good(o, t, 0);
              Since(old(out), PlainRun(t.size, k)) && sequence == |out| && seqNo == sequence + 1 && size == t.got(k) &&
              (size != -1 ==> bytes == Total(t, k + 1)) && (last <==> size != -1 && k + 1 == Needed(o, t))
    {
      ghost var before := out;
      var left: int, i := Blocks(o, t.size), 0;
      bytes := 0;
      while true
        invariant 0 <= i < Needed(o, t) && left == Blocks(o, t.size) - i && bytes == Total(t, i)
        invariant Valid() && Good(o, t, 0) == Good(o, t, i) && Since(before, PlainRun(t.size, i))
        decreases Needed(o, t) - i
      {
        sequence, seqNo, size := seqNo, seqNo + 1, t.got(i);
        if size == -1 {
          return sequence, size, bytes, false;
        }
        bytes := bytes + size;
        if left > 1 {
          if size < o.block {
            return sequence, size, bytes, false;
          }
          Emit(Buffer(sequence, size, t.size, 0, false, 0));
        }
        left := left - 1;
        if left <= 0 {
          return sequence, size, bytes, true;
        }
        i := i + 1;
      }
    }

    /** One attempt of reader_read_file. */
    method ReadOnce(t: Try) returns (outcome: Outcome)
      requires Valid() && TryOk(o, t)
      modifies this`seqNo, this`out
      ensures Valid() && outcome == Result(o, t) && Since(old(out), TryShapes(o, t))
    {
      ghost var before := out;
      if !t.opens {
        seqNo := seqNo + 1;
        Report(seqNo - 1, Failed);
        return Failed;
      }
      hide Good, Total;
      var sequence, size, bytes, last := ReadBlocks(t);
      if size == -1 {
        outcome := Failed;
      } else if !last || bytes != t.size {
        outcome := Restat(t);
      } else if t.size != 0 && t.size % o.block == 0 && t.extra != 0 {
        outcome := if t.extra == -1 then Failed else Restat(t);
      } else {
        outcome := Finished;
      }
      if outcome == Finished {
        if IsFragment(o, t.size) {
          FragmentHasRest(o, t.size);
          TailIsSome(o, t);
        }
        Emit(Buffer(sequence, size, t.size, 0, IsFragment(o, t.size), 0));
      } else {
        Report(sequence, outcome);
      }
    }

    /** reader_read_file: attempts until one does not find a changed size. */
    method ReadFile(ts: seq<Try>)
      requires Valid() && TriesOk(o, ts)
      modifies this`seqNo, this`out
      ensures Valid() && Since(old(out), FileShapes(o, ts))
    {
      hide TryShapes, Result, Emitted;
      var i := 0;
      assert FileShapes(o, []) == [];
      assert Since(out, []) by { NothingEmitted(out); }
      while true
        invariant 0 <= i < |ts| && Valid() && Since(old(out), FileShapes(o, ts[..i]))
        decreases |ts| - i
      {
        ghost var mid := out;
        var outcome := ReadOnce(ts[i]);
        FileSnoc(o, ts, i);
        SinceJoin(old(out), mid, FileShapes(o, ts[..i]), TryShapes(o, ts[i]));
        if outcome != Retry {
          assert i == |ts| - 1;
          assert ts[..i + 1] == ts;
          break;
        }
        i := i + 1;
      }
    }

    lemma NothingEmitted(before: seq<Buffer>)
      requires before == out
      ensures Since(before, [])
    {
    }

    lemma SinceJoin(before: seq<Buffer>, mid: seq<Buffer>, a: seq<Shape>, b: seq<Shape>)
      requires before <= mid <= out && Emitted(mid[|before|..], a, |before|) && Emitted(out[|mid|..], b, |mid|)
      ensures Since(before, a + b)
    {
      assert out[|before|..] == mid[|before|..] + out[|mid|..];
      EmittedAppend(mid[|before|..], out[|mid|..], a, b, |before|);
    }

    /** reader_read_process: each block is emitted when the next has been read, so that the
        last one can carry the size. */
    method ReadProcess(p: Process)
      requires Valid() && ProcessOk(o, p)
      modifies this`seqNo, this`out
      ensures Valid() && Since(old(out), ProcessShapes(o, p))
    {
      ghost var before := out;
      var sequence := seqNo;
      if !p.starts {
        seqNo := seqNo + 1;
        Report(sequence, Failed);
        return;
      }
      var i, bytes, size := 0, 0, 0;
      var prev: Option<nat> := None;
      var prevNo := 0;
      while true
        invariant 0 <= i <= p.chunks && bytes == Output(p, i) && 0 <= bytes && (i > 0 ==> size == p.got(i - 1))
        invariant (prev == if i == 0 then None else Some(size)) && (i > 0 ==> size > 0)
        invariant Since(before, PlainRun(-1, if i == 0 then 0 else i - 1)) && seqNo == |out| + (if i == 0 then 0 else 1)
        invariant prev.Some? ==> prevNo == |out|
        decreases p.chunks - i
      {
        sequence, seqNo := seqNo, seqNo + 1;
        if p.got(i) <= 0 {
          break;
        }
        if prev.Some? {
          Emit(Buffer(prevNo, prev.value, -1, 0, false, 0));
        }
        size := p.got(i);
        prev, prevNo := Some(size), sequence;
        bytes := bytes + size;
        i := i + 1;
      }
      OutputPositive(o, p, p.chunks);
      if prev.Some? {
        sequence, seqNo := prevNo, seqNo - 1;
      }
      if p.got(i) == 0 && p.exitsWell {
        Emit(Buffer(sequence, if prev.Some? then prev.value else 0, bytes, 0, IsFragment(o, bytes), 0));
      } else {
        Report(sequence, Failed);
      }
    }

    /** reader_scan */
    method Scan(w: World, es: seq<Entry>)
      requires Valid() && WorldOk(o, w)
      modifies this
      ensures Valid() && read == ReadAfter(Flat(es), old(read))
      ensures Since(old(out), AllShapes(o, w, ReaderVisits(Flat(es), old(read))))
      decreases es
    {
      hide AllShapes, ReaderVisits, ReadAfter, Flat, Emitted, FileShapes, ProcessShapes, TriesOk, ProcessOk;
      WalkStart(o, w, read);
      NothingEmitted(out);
      assert es[..0] == [];
      for i := 0 to |es|
        invariant Valid() && read == ReadAfter(Flat(es[..i]), old(read))
        invariant Since(old(out), AllShapes(o, w, ReaderVisits(Flat(es[..i]), old(read))))
      {
        ghost var mid, seen := out, read;
        ghost var before := AllShapes(o, w, ReaderVisits(Flat(es[..i]), old(read)));
        ReaderStep(o, w, es, i, old(read));
        NothingEmitted(out);
        match es[i] {
          case OldRoot =>
          case Other(_) =>
          case File(ino) =>
            if ino !in read {
              read := read + {ino};
              ReadFile(w.files(ino));
            }
          case Pseudo(ino) =>
            ReadProcess(w.processes(ino));
          case Directory(entries) =>
            Scan(w, entries);
        }
        SinceJoin(old(out), mid, before, AllShapes(o, w, ReaderVisits(Flat([es[i]]), seen)));
      }
      assert es[..|es|] == es;
    }
  }

  // ---------- appending to a walk ----------

  function ReadAfter(es: seq<Entry>, read: set<nat>): set<nat>
  {
    if es == [] then read else ReadAfter(es[1..], if es[0].File? then read + {es[0].ino} else read)
  }

  function MadeAfter(es: seq<Entry>, made: set<nat>): set<nat>
  {
    if es == [] then made else MadeAfter(es[1..], if HasInode(es[0]) then made + {es[0].ino} else made)
  }

  lemma {:induction false} FlatAppend(a: seq<Entry>, b: seq<Entry>)
    ensures Flat(a + b) == Flat(a) + Flat(b)
    decreases |a|
  {
    if a == [] {
      assert a + b == b;
    } else {
      assert (a + b)[1..] == a[1..] + b;
      FlatAppend(a[1..], b);
      Assoc(if a[0].Directory? then Flat(a[0].entries) else [a[0]], Flat(a[1..]), Flat(b));
    }
  }

  lemma {:induction false} ReaderVisitsAppend(a: seq<Entry>, b: seq<Entry>, read: set<nat>)
    ensures ReaderVisits(a + b, read) == ReaderVisits(a, read) + ReaderVisits(b, ReadAfter(a, read))
    ensures ReadAfter(a + b, read) == ReadAfter(b, ReadAfter(a, read))
    decreases |a|
  {
    if a == [] {
      assert a + b == b;
    } else {
      assert (a + b)[1..] == a[1..] + b;
      var next := if a[0].File? then read + {a[0].ino} else read;
      ReaderVisitsAppend(a[1..], b, next);
      Assoc([a[0]], ReaderVisits(a[1..], next), ReaderVisits(b, ReadAfter(a[1..], next)));
      if a[0].File? && a[0].ino in read {
        assert next == read;
      }
    }
  }

  lemma {:induction false} MainVisitsAppend(a: seq<Entry>, b: seq<Entry>, made: set<nat>)
    ensures MainVisits(a + b, made) == MainVisits(a, made) + MainVisits(b, MadeAfter(a, made))
    ensures MadeAfter(a + b, made) == MadeAfter(b, MadeAfter(a, made))
    decreases |a|
  {
    if a == [] {
      assert a + b == b;
    } else {
      assert (a + b)[1..] == a[1..] + b;
      var next := if HasInode(a[0]) then made + {a[0].ino} else made;
      MainVisitsAppend(a[1..], b, next);
      Assoc([a[0]], MainVisits(a[1..], next), MainVisits(b, MadeAfter(a[1..], next)));
      if HasInode(a[0]) && a[0].ino in made {
        assert next == made;
      }
    }
  }

  lemma {:induction false} AllShapesAppend(o: Options, w: World, a: seq<Entry>, b: seq<Entry>)
    requires o.block > 0 && WorldOk(o, w)
    ensures AllShapes(o, w, a + b) == AllShapes(o, w, a) + AllShapes(o, w, b)
    decreases |a|
  {
    hide EntryShapes;
    if a == [] {
      assert a + b == b;
    } else {
      assert (a + b)[1..] == a[1..] + b;
      AllShapesAppend(o, w, a[1..], b);
      Assoc(EntryShapes(o, w, a[0]), AllShapes(o, w, a[1..]), AllShapes(o, w, b));
    }
  }

  lemma WalkStart(o: Options, w: World, seen: set<nat>)
    requires o.block > 0 && WorldOk(o, w)
    ensures Flat([]) == [] && ReaderVisits([], seen) == [] && MainVisits([], seen) == []
    ensures ReadAfter([], seen) == seen && MadeAfter([], seen) == seen && AllShapes(o, w, []) == []
  {
  }

  /** One more entry in the reader's walk. */
  lemma ReaderStep(o: Options, w: World, es: seq<Entry>, i: nat, read: set<nat>)
    requires o.block > 0 && WorldOk(o, w) && i < |es|
    ensures var seen := ReadAfter(Flat(es[..i]), read);
            AllShapes(o, w, ReaderVisits(Flat(es[..i + 1]), read)) ==
            AllShapes(o, w, ReaderVisits(Flat(es[..i]), read)) + AllShapes(o, w, ReaderVisits(Flat([es[i]]), seen)) &&
            ReadAfter(Flat(es[..i + 1]), read) == ReadAfter(Flat([es[i]]), seen) &&
            (!es[i].Directory? ==> AllShapes(o, w, ReaderVisits(Flat([es[i]]), seen)) ==
                                   if es[i].File? && es[i].ino in seen then [] else EntryShapes(o, w, es[i])) &&
            (!es[i].Directory? ==>
               ReadAfter(Flat([es[i]]), seen) == if es[i].File? then seen + {es[i].ino} else seen) &&
            (es[i].Directory? ==> Flat([es[i]]) == Flat(es[i].entries))
  {
    hide EntryShapes, WorldOk;
    var seen := ReadAfter(Flat(es[..i]), read);
    assert es[..i + 1] == es[..i] + [es[i]];
    FlatAppend(es[..i], [es[i]]);
    ReaderVisitsAppend(Flat(es[..i]), Flat([es[i]]), read);
    AllShapesAppend(o, w, ReaderVisits(Flat(es[..i]), read), ReaderVisits(Flat([es[i]]), seen));
    FlatOne(es[i]);
    if !es[i].Directory? {
      VisitOne(o, w, es[i], seen);
    }
  }

  lemma FlatOne(e: Entry)
    ensures Flat([e]) == if e.Directory? then Flat(e.entries) else [e]
  {
    assert [e][1..] == [];
  }

  lemma VisitOne(o: Options, w: World, e: Entry, seen: set<nat>)
    requires o.block > 0 && WorldOk(o, w) && !e.Directory?
    ensures AllShapes(o, w, ReaderVisits([e], seen)) == if e.File? && e.ino in seen then [] else EntryShapes(o, w, e)
    ensures ReadAfter([e], seen) == if e.File? then seen + {e.ino} else seen
    ensures AllShapes(o, w, MainVisits([e], seen)) ==
            if (e.File? || e.Pseudo?) && e.ino in seen then [] else EntryShapes(o, w, e)
    ensures MadeAfter([e], seen) == if HasInode(e) then seen + {e.ino} else seen
  {
    hide FileShapes, ProcessShapes;
    assert [e][1..] == [];
    assert AllShapes(o, w, []) == [];
    assert AllShapes(o, w, [e]) == EntryShapes(o, w, e) + AllShapes(o, w, [e][1..]);
    assert e.File? && e.ino in seen ==> seen + {e.ino} == seen;
  }

  lemma FragmentHasRest(o: Options, size: nat)
    requires o.block > 0 && IsFragment(o, size)
    ensures size % o.block != 0
  {
    if size < o.block {
      Divides(size, 0, size, o.block);
    }
  }

  /** The tail of a file that is not a whole number of blocks is not empty. */
  lemma TailIsSome(o: Options, t: Try)
    requires o.block > 0 && TryOk(o, t) && Total(t, Needed(o, t)) == t.size && t.size % o.block != 0
    requires Good(o, t, 0) == Needed(o, t) - 1 && t.got(Needed(o, t) - 1) != -1
    ensures t.got(Needed(o, t) - 1) > 0
  {
    var n := Needed(o, t) - 1;
    TotalFull(o, t, n);
    if t.got(n) == 0 {
      Divides(t.size, n, 0, o.block);
    }
  }

  lemma {:induction false} TotalFull(o: Options, t: Try, n: nat)
    requires o.block > 0 && n < Needed(o, t) && Good(o, t, 0) >= n
    ensures Total(t, n) == n * o.block
    decreases n
  {
    if n > 0 {
      TotalFull(o, t, n - 1);
      GoodAll(o, t, 0, n - 1);
    }
  }

  lemma {:induction false} GoodAll(o: Options, t: Try, i: nat, j: nat)
    requires o.block > 0 && i <= j && i < Needed(o, t) && j < Good(o, t, i)
    ensures t.got(j) == o.block
    decreases j - i
  {
    if i < j {
      GoodAll(o, t, i + 1, j);
    }
  }

  lemma FileSnoc(o: Options, ts: seq<Try>, i: nat)
    requires o.block > 0 && i < |ts|
    ensures FileShapes(o, ts[..i + 1]) == FileShapes(o, ts[..i]) + TryShapes(o, ts[i])
  {
    hide FileShapes, TryShapes;
    FileAppend(o, ts[..i], ts[i]);
    TakeNext(ts, i);
  }

  lemma {:induction false} FileAppend(o: Options, ts: seq<Try>, t: Try)
    requires o.block > 0
    ensures FileShapes(o, ts + [t]) == FileShapes(o, ts) + TryShapes(o, t)
  {
    hide TryShapes;
    if ts == [] {
      assert ts + [t] == [t];
      assert FileShapes(o, [t]) == TryShapes(o, t) + FileShapes(o, []);
    } else {
      assert (ts + [t])[1..] == ts[1..] + [t];
      FileAppend(o, ts[1..], t);
      Assoc(TryShapes(o, ts[0]), FileShapes(o, ts[1..]), TryShapes(o, t));
    }
  }

  // ---------- between the reader and main ----------

  /** What the deflators and the fragment threads make of a buffer: an all-zero tail end is
      turned into a block of size 0. */
  ghost predicate Passed(b: Buffer, m: Buffer)
  {
    m.sequence == b.sequence && m.error == b.error &&
    (b.error == 0 ==>
       m.fileSize == b.fileSize &&
       if b.fragment then (m.fragment && m.cbyte == b.size) || (!m.fragment && m.cbyte == 0) else !m.fragment)
  }

  ghost predicate Delivered(m: Buffer, s: Shape)
  {
    match s
    case Plain(size) => m.fileSize == size && m.error == 0 && !m.fragment
    case Last(size, fragment) => m.fileSize == size && m.error == 0 && (m.fragment ==> fragment && m.cbyte > 0)
    case Error(e) => m.error == e
  }

  lemma PassedDelivered(b: Buffer, m: Buffer, s: Shape)
    requires Shaped(b, s) && Passed(b, m)
    ensures Delivered(m, s)
  {
  }

  /** The queue main takes buffers from by number. They arrive in the order of `coming`, whatever
      it is: as many as `early` says before main asks for its next one, and then until that one is
      there. */
  class SeqQueue {
    var chain: seq<Buffer>
    var coming: seq<Buffer>
    var next: nat
    const early: nat -> nat
    ghost const stream: seq<Buffer>

    constructor (coming: seq<Buffer>, early: nat -> nat, ghost stream: seq<Buffer>)
      requires Numbered(stream) && forall b :: b in coming <==> b in stream
      ensures this.stream == stream && next == 0 && Valid()
    {
      chain, next := [], 0;
      this.coming, this.early, this.stream := coming, early, stream;
    }

    /** Every buffer is the one with its number, and those main has not taken are queued or
        still to come. */
    ghost predicate Valid()
      reads this
    {
      && Numbered(stream) && next <= |stream|
      && (forall b :: b in chain || b in coming ==> b.sequence < |stream| && b == stream[b.sequence])
      && forall i :: next <= i < |stream| ==> stream[i] in chain || stream[i] in coming
    }

    /** seq_queue_put by one of the threads. */
    method Arrive()
      requires Valid() && coming != []
      modifies this`chain, this`coming
      ensures Valid() && coming == old(coming)[1..] && chain == [old(coming)[0]] + old(chain)
    {
      var b := coming[0];
      chain, coming := [b] + chain, coming[1..];
      assert forall c :: c in old(coming) ==> c in coming || c == b;
    }

    method Find(sequence: nat) returns (i: int)
      ensures -1 <= i < |chain|
      ensures i >= 0 ==> chain[i].sequence == sequence
      ensures i == -1 ==> forall b :: b in chain ==> b.sequence != sequence
    {
      i := 0;
      while i < |chain|
        invariant 0 <= i <= |chain| && forall k :: 0 <= k < i ==> chain[k].sequence != sequence
      {
        if chain[i].sequence == sequence {
          return;
        }
        i := i + 1;
      }
      i := -1;
    }

    /** seq_queue_get: waits for the buffer with the next number and takes it. */
    method Get() returns (b: Buffer)
      requires Valid() && next < |stream|
      modifies this
      ensures Valid() && b == stream[old(next)] && next == old(next) + 1
    {
      var n := early(next);
      while n > 0 && coming != []
        invariant Valid() && next == old(next)
      {
        Arrive();
        n := n - 1;
      }
      var i := Find(next);
      while i == -1
        invariant Valid() && next == old(next) && -1 <= i < |chain|
        invariant i >= 0 ==> chain[i].sequence == next
        invariant i == -1 ==> forall c :: c in chain ==> c.sequence != next
        decreases |coming|, i
      {
        assert stream[next] in coming;
        Arrive();
        i := Find(next);
      }
      b := chain[i];
      ghost var before := chain;
      chain := chain[..i] + chain[i + 1..];
      assert forall c :: c in before ==> c in chain || c == b;
      next := next + 1;
    }
  }

  ghost predicate Numbered(stream: seq<Buffer>)
  {
    forall i :: 0 <= i < |stream| ==> stream[i].sequence == i
  }

  // ---------- main ----------

  /** The buffers of one attempt: k blocks of a file of size f (-1 if not known yet), then
      the tail or an error report. */
  ghost predicate Attempt(o: Options, f: int, k: nat, x: Shape)
  {
    o.block > 0 && -1 <= f &&
    match x
    case Plain(_) => false
    case Last(size, fragment) =>
      size >= 0 && (fragment ==> size % o.block != 0) &&
      if f == -1 then (k == 0 ==> size <= o.block)
      else size == f && k + 1 == if Blocks(o, f) <= 1 then 1 else Blocks(o, f)
    case Error(e) => e != 0 && (f != -1 ==> k < if Blocks(o, f) <= 1 then 1 else Blocks(o, f))
  }

  function AttemptShapes(f: int, k: nat, x: Shape): seq<Shape> { PlainRun(f, k) + [x] }

  /** The stream holds these shapes from here on. */
  ghost predicate At(stream: seq<Buffer>, pos: nat, ss: seq<Shape>)
  {
    pos + |ss| <= |stream| && forall i :: 0 <= i < |ss| ==> Delivered(stream[pos + i], ss[i])
  }

  lemma AtAttempt(stream: seq<Buffer>, pos: nat, f: int, k: nat, x: Shape, i: nat)
    requires At(stream, pos, AttemptShapes(f, k, x)) && i <= k
    ensures pos + k < |stream| && Delivered(stream[pos + i], if i < k then Plain(f) else x)
  {
    var ss := AttemptShapes(f, k, x);
    assert ss[i] == if i < k then Plain(f) else x;
  }

  function StatusOf(x: Shape): nat { if x.Error? then x.error else 0 }

  class Main {
    const o: Options
    const queue: SeqQueue
    var made: set<nat>

    constructor (o: Options, queue: SeqQueue)
      ensures this.o == o && this.queue == queue && made == {}
    {
      this.o, this.queue, made := o, queue, {};
    }

    /** get_file_buffer */
    method GetFileBuffer() returns (b: Buffer)
      requires queue.Valid() && queue.next < |queue.stream|
      modifies queue
      ensures queue.Valid() && b == queue.stream[old(queue.next)] && queue.next == old(queue.next) + 1
    {
      b := queue.Get();
    }

    /** write_file_process: blocks until one carries the size. */
    method WriteFileProcess(first: Buffer, ghost start: nat, ghost k: nat, ghost x: Shape) returns (status: nat)
      requires queue.Valid() && Attempt(o, -1, k, x) && k > 0 && At(queue.stream, start, AttemptShapes(-1, k, x)) &&
               queue.next == start + 1 && first == queue.stream[start]
      modifies queue
      ensures queue.Valid() && queue.next == start + k + 1 && status == StatusOf(x)
    {
      var b := first;
      ghost var i := 0;
      AtAttempt(queue.stream, start, -1, k, x, 0);
      while b.fileSize == -1
        invariant queue.Valid() && 0 <= i <= k && b == queue.stream[start + i] && queue.next == start + i + 1 &&
                  b.error == 0 && start + k < |queue.stream|
        invariant i == k ==> x.Last?
        decreases k - i
      {
        AtAttempt(queue.stream, start, -1, k, x, i);
        AtAttempt(queue.stream, start, -1, k, x, i + 1);
        b := GetFileBuffer();
        i := i + 1;
        if b.error != 0 {
          return b.error;
        }
      }
      AtAttempt(queue.stream, start, -1, k, x, i);
      status := 0;
    }

    /** write_file_blocks, with or without the duplicate check: as many buffers as the size
        calls for, one fewer block when the last is a fragment. */
    method WriteFileBlocks(first: Buffer, ghost start: nat, ghost f: int, ghost k: nat,
                           ghost x: Shape)
      returns (status: nat)
      requires queue.Valid() && Attempt(o, f, k, x) && At(queue.stream, start, AttemptShapes(f, k, x)) &&
               queue.next == start + 1 && first == queue.stream[start]
      requires first.error == 0 && first.fileSize > 0
      modifies queue
      ensures queue.Valid() && queue.next == start + k + 1 && status == StatusOf(x)
    {
      var size := first.fileSize;
      var blocks, block, b := Blocks(o, size), 0, first;
      AtAttempt(queue.stream, start, f, k, x, 0);
      ghost var n := blocks;
      ManyBlocks(o, size);
      while block < blocks
        invariant queue.Valid() && 0 <= block <= n && start + k < |queue.stream| && n == Blocks(o, size)
        invariant block < blocks ==>
                    blocks == n && block <= k && b == queue.stream[start + block] &&
                    queue.next == start + block + 1 && b.error == 0
        invariant block >= blocks ==> block == k + 1 && queue.next == start + k + 1 && x.Last?
        decreases n - block
      {
        AtAttempt(queue.stream, start, f, k, x, block);
        ghost var tail := b.fragment;
        if b.fragment {
          blocks := size / o.block;
        }
        block := block + 1;
        if block < blocks {
          AtAttempt(queue.stream, start, f, k, x, block);
          b := GetFileBuffer();
          if b.error != 0 {
            return b.error;
          }
        }
      }
      status := 0;
    }

    /** One attempt: the first buffer decides how the file is written. */
    method WriteOnce(ghost f: int, ghost k: nat, ghost x: Shape) returns (status: nat)
      requires queue.Valid() && Attempt(o, f, k, x) && At(queue.stream, queue.next, AttemptShapes(f, k, x))
      modifies queue
      ensures queue.Valid() && queue.next == old(queue.next) + k + 1 && status == StatusOf(x)
    {
      ghost var start := queue.next;
      AtAttempt(queue.stream, start, f, k, x, 0);
      var b := GetFileBuffer();
      if b.error != 0 {
        status := b.error;
      } else if b.fileSize == -1 {
        status := WriteFileProcess(b, start, k, x);
      } else if b.fileSize == 0 {
        status := 0;
      } else if b.fragment && b.cbyte != 0 {
        status := 0;
      } else {
        status := WriteFileBlocks(b, start, f, k, x);
      }
    }

    /** write_file on a regular file, with all its attempts. */
    method WriteFile(ghost ts: seq<Try>)
      requires queue.Valid() && TriesOk(o, ts) && At(queue.stream, queue.next, FileShapes(o, ts))
      modifies queue
      ensures queue.Valid() && queue.next == old(queue.next) + |FileShapes(o, ts)|
    {
      hide TryShapes, Result, Delivered;
      ghost var i := 0;
      ghost var start := queue.next;
      assert ts[0..] == ts;
      while true
        invariant queue.Valid() && 0 <= i < |ts| && At(queue.stream, queue.next, FileShapes(o, ts[i..])) &&
                  queue.next + |FileShapes(o, ts[i..])| == start + |FileShapes(o, ts)|
        decreases |ts| - i
      {
        ghost var f, k, x := TryIsAttempt(o, ts[i]);
        assert ts[i..][1..] == ts[i + 1..];
        AtSplit(queue.stream, queue.next, TryShapes(o, ts[i]), FileShapes(o, ts[i + 1..]));
        var status := WriteOnce(f, k, x);
        if status != 2 {
          assert i == |ts| - 1;
          break;
        }
        i := i + 1;
      }
    }

    /** write_file on the output of a process. */
    method WriteProcess(ghost p: Process)
      requires queue.Valid() && ProcessOk(o, p) && At(queue.stream, queue.next, ProcessShapes(o, p))
      modifies queue
      ensures queue.Valid() && queue.next == old(queue.next) + |ProcessShapes(o, p)|
    {
      hide ProcessShapes;
      ghost var k, x := ProcessIsAttempt(o, p);
      var status := WriteOnce(-1, k, x);
    }

    /** dir_scan7, as far as it takes buffers. */
    method Scan(w: World, es: seq<Entry>)
      requires queue.Valid() && o.block > 0 && WorldOk(o, w) &&
               At(queue.stream, queue.next, AllShapes(o, w, MainVisits(Flat(es), made)))
      modifies this`made, queue
      ensures made == MadeAfter(Flat(es), old(made))
      ensures queue.Valid() && queue.next == old(queue.next) + |AllShapes(o, w, MainVisits(Flat(es), old(made)))|
      decreases es
    {
      hide AllShapes, MainVisits, MadeAfter, Flat, FileShapes, ProcessShapes, TriesOk, ProcessOk, Delivered;
      WalkStart(o, w, made);
      assert es[..0] == [];
      ghost var start := queue.next;
      ghost var all := AllShapes(o, w, MainVisits(Flat(es), old(made)));
      for i := 0 to |es|
        invariant queue.Valid() && made == MadeAfter(Flat(es[..i]), old(made))
        invariant queue.next == start + |AllShapes(o, w, MainVisits(Flat(es[..i]), old(made)))|
      {
        ghost var done := AllShapes(o, w, MainVisits(Flat(es[..i]), old(made)));
        ghost var this1 := AllShapes(o, w, MainVisits(Flat([es[i]]), made));
        MainStep(o, w, es, i, old(made));
        MainRest(o, w, es, i, old(made));
        ghost var later := AllShapes(o, w, MainVisits(Flat(es[i + 1..]), MadeAfter(Flat(es[..i + 1]), old(made))));
        AtSplit(queue.stream, start, done + this1, later);
        AtSplit(queue.stream, start, done, this1);
        match es[i] {
          case OldRoot =>
          case Other(ino) =>
            made := made + {ino};
          case File(ino) =>
            if ino !in made {
              WriteFile(w.files(ino));
              made := made + {ino};
            }
          case Pseudo(ino) =>
            if ino !in made {
              WriteProcess(w.processes(ino));
              made := made + {ino};
            }
          case Directory(entries) =>
            Scan(w, entries);
        }
      }
      assert es[..|es|] == es;
    }
  }

  lemma MainStep(o: Options, w: World, es: seq<Entry>, i: nat, made: set<nat>)
    requires o.block > 0 && WorldOk(o, w) && i < |es|
    ensures var seen := MadeAfter(Flat(es[..i]), made);
            AllShapes(o, w, MainVisits(Flat(es[..i + 1]), made)) ==
            AllShapes(o, w, MainVisits(Flat(es[..i]), made)) + AllShapes(o, w, MainVisits(Flat([es[i]]), seen)) &&
            MadeAfter(Flat(es[..i + 1]), made) == MadeAfter(Flat([es[i]]), seen) &&
            (!es[i].Directory? ==>
               AllShapes(o, w, MainVisits(Flat([es[i]]), seen)) ==
               if (es[i].File? || es[i].Pseudo?) && es[i].ino in seen then [] else EntryShapes(o, w, es[i])) &&
            (!es[i].Directory? ==>
               MadeAfter(Flat([es[i]]), seen) == if HasInode(es[i]) then seen + {es[i].ino} else seen) &&
            (es[i].Directory? ==> Flat([es[i]]) == Flat(es[i].entries))
  {
    hide EntryShapes, WorldOk;
    var seen := MadeAfter(Flat(es[..i]), made);
    assert es[..i + 1] == es[..i] + [es[i]];
    FlatAppend(es[..i], [es[i]]);
    MainVisitsAppend(Flat(es[..i]), Flat([es[i]]), made);
    AllShapesAppend(o, w, MainVisits(Flat(es[..i]), made), MainVisits(Flat([es[i]]), seen));
    FlatOne(es[i]);
    if !es[i].Directory? {
      VisitOne(o, w, es[i], seen);
    }
  }

  lemma MainRest(o: Options, w: World, es: seq<Entry>, i: nat, made: set<nat>)
    requires o.block > 0 && WorldOk(o, w) && i < |es|
    ensures AllShapes(o, w, MainVisits(Flat(es), made)) ==
            AllShapes(o, w, MainVisits(Flat(es[..i + 1]), made)) +
            AllShapes(o, w, MainVisits(Flat(es[i + 1..]), MadeAfter(Flat(es[..i + 1]), made)))
  {
    hide AllShapes, WorldOk, MainVisits, MadeAfter, Flat;
    var a, b := es[..i + 1], es[i + 1..];
    assert es == a + b;
    FlatAppend(a, b);
    MainVisitsAppend(Flat(a), Flat(b), made);
    AllShapesAppend(o, w, MainVisits(Flat(a), made), MainVisits(Flat(b), MadeAfter(Flat(a), made)));
  }

  lemma AtSplit(stream: seq<Buffer>, pos: nat, a: seq<Shape>, b: seq<Shape>)
    requires At(stream, pos, a + b)
    ensures At(stream, pos, a) && At(stream, pos + |a|, b)
  {
    hide Delivered;
    forall i | 0 <= i < |a|
      ensures Delivered(stream[pos + i], a[i])
    {
      assert (a + b)[i] == a[i];
    }
    forall i | 0 <= i < |b|
      ensures Delivered(stream[pos + |a| + i], b[i])
    {
      assert (a + b)[|a| + i] == b[i];
    }
  }

  lemma TryIsAttempt(o: Options, t: Try) returns (f: int, k: nat, x: Shape)
    requires o.block > 0
    ensures Attempt(o, f, k, x) && TryShapes(o, t) == AttemptShapes(f, k, x)
    ensures StatusOf(x) == if Result(o, t) == Finished then 0 else if Result(o, t) == Retry then 2 else 1
  {
    f := t.size;
    k := if Result(o, t) == Finished then Needed(o, t) - 1 else if t.opens then Good(o, t, 0) else 0;
    x := TryShapes(o, t)[k];
    if x.Last? && x.fragment {
      FragmentHasRest(o, t.size);
    }
  }

  lemma ProcessIsAttempt(o: Options, p: Process) returns (k: nat, x: Shape)
    requires ProcessOk(o, p)
    ensures Attempt(o, -1, k, x) && ProcessShapes(o, p) == AttemptShapes(-1, k, x)
  {
    OutputPositive(o, p, p.chunks);
    k := if p.starts && p.chunks > 0 then p.chunks - 1 else 0;
    x := ProcessShapes(o, p)[k];
    if x.Last? && x.fragment {
      FragmentHasRest(o, x.fileSize);
    }
  }

  lemma ManyBlocks(o: Options, size: nat)
    requires o.block > 0 && size > 0
    ensures Blocks(o, size) > 0 && (size <= o.block ==> Blocks(o, size) == 1)
    ensures size % o.block != 0 ==> size / o.block == Blocks(o, size) - 1
  {
    DivMod(size, o.block);
    var q, r := size / o.block, size % o.block;
    if r == 0 {
      Divides(size + o.block - 1, q, o.block - 1, o.block);
      if q <= 0 {
        Apart(1, q, o.block);
      } else if q > 1 {
        Apart(q, 1, o.block);
      }
    } else {
      Divides(size + o.block - 1, q + 1, r - 1, o.block);
      if q > 0 {
        Apart(q, 0, o.block);
      } else if q < 0 {
        Apart(0, q, o.block);
      }
    }
  }

  // ---------- the two walks over the tree ----------

  /** A directory entry by its inode; hard links share one. An old root entry comes from
      the file system being appended to. */
  datatype Entry = OldRoot | File(ino: nat) | Pseudo(ino: nat) | Other(ino: nat) | Directory(entries: seq<Entry>)

  /** What happens when each inode is read. */
  datatype World = World(files: nat -> seq<Try>, processes: nat -> Process)

  ghost predicate WorldOk(o: Options, w: World)
  {
    (forall i: nat :: TriesOk(o, w.files(i))) && forall i: nat :: ProcessOk(o, w.processes(i))
  }

  /** The entries that are not directories, in the order of the walk. */
  function Flat(es: seq<Entry>): seq<Entry>
    decreases es
  {
    if es == [] then [] else (if es[0].Directory? then Flat(es[0].entries) else [es[0]]) + Flat(es[1..])
  }

  /** What the reader reads of a flat list: a file once, a process every time. */
  function ReaderVisits(es: seq<Entry>, read: set<nat>): seq<Entry>
  {
    if es == [] then [] else
      match es[0]
      case File(i) => if i in read then ReaderVisits(es[1..], read) else [es[0]] + ReaderVisits(es[1..], read + {i})
      case Pseudo(i) => [es[0]] + ReaderVisits(es[1..], read)
      case _ => ReaderVisits(es[1..], read)
  }

  /** What main writes: every inode it has not made yet. */
  function MainVisits(es: seq<Entry>, made: set<nat>): seq<Entry>
  {
    if es == [] then [] else
      match es[0]
      case File(i) => if i in made then MainVisits(es[1..], made) else [es[0]] + MainVisits(es[1..], made + {i})
      case Pseudo(i) => if i in made then MainVisits(es[1..], made) else [es[0]] + MainVisits(es[1..], made + {i})
      case Other(i) => MainVisits(es[1..], made + {i})
      case _ => MainVisits(es[1..], made)
  }

  predicate HasInode(e: Entry) { e.File? || e.Pseudo? || e.Other? }

  /** Entries that share an inode are links of one kind, and a process has one entry. */
  ghost predicate Proper(es: seq<Entry>)
  {
    forall j, k ::
      0 <= j < k < |es| && HasInode(es[j]) && HasInode(es[k]) && es[j].ino == es[k].ino ==>
        es[j] == es[k] && !es[j].Pseudo?
  }

  ghost predicate SameSeen(es: seq<Entry>, read: set<nat>, made: set<nat>)
  {
    forall j :: 0 <= j < |es| ==>
      (es[j].File? ==> (es[j].ino in read <==> es[j].ino in made)) && (es[j].Pseudo? ==> es[j].ino !in made)
  }

  /** Both walks deal with the same inodes in the same order. */
  lemma {:induction false} VisitsAgree(es: seq<Entry>, read: set<nat>, made: set<nat>)
    requires Proper(es) && SameSeen(es, read, made)
    ensures ReaderVisits(es, read) == MainVisits(es, made)
  {
    if es != [] {
      var e, rest := es[0], es[1..];
      assert forall j :: 0 <= j < |rest| ==> rest[j] == es[j + 1];
      assert Proper(rest);
      var read' := if e.File? then read + {e.ino} else read;
      var made' := if HasInode(e) then made + {e.ino} else made;
      forall j | 0 <= j < |rest|
        ensures (rest[j].File? ==> (rest[j].ino in read' <==> rest[j].ino in made')) &&
                (rest[j].Pseudo? ==> rest[j].ino !in made')
      {
        assert es[j + 1] == rest[j];
      }
      VisitsAgree(rest, read', made');
      if e.File? && e.ino in read {
        assert read' == read && made' == made;
      }
    }
  }

  function EntryShapes(o: Options, w: World, e: Entry): seq<Shape>
    requires o.block > 0
    requires e.Pseudo? ==> ProcessOk(o, w.processes(e.ino))
  {
    match e
    case File(i) => FileShapes(o, w.files(i))
    case Pseudo(i) => ProcessShapes(o, w.processes(i))
    case _ => []
  }

  ghost function AllShapes(o: Options, w: World, es: seq<Entry>): seq<Shape>
    requires o.block > 0 && WorldOk(o, w)
  {
    if es == [] then [] else EntryShapes(o, w, es[0]) + AllShapes(o, w, es[1..])
  }

  /** The delivered stream is the emitted one, buffer by buffer. */
  ghost predicate AllPassed(out: seq<Buffer>, stream: seq<Buffer>)
  {
    |stream| == |out| && forall i :: 0 <= i < |out| ==> Passed(out[i], stream[i])
  }

  lemma StreamAt(out: seq<Buffer>, stream: seq<Buffer>, ss: seq<Shape>)
    requires Emitted(out, ss, 0) && AllPassed(out, stream)
    ensures At(stream, 0, ss) && |ss| == |stream| && forall i :: 0 <= i < |stream| ==> stream[i].sequence == i
  {
    forall i | 0 <= i < |ss|
      ensures Delivered(stream[0 + i], ss[i])
    {
      PassedDelivered(out[i], stream[i], ss[i]);
    }
  }

  /** Over a whole tree, whatever the files, processes and other threads do, and in whatever order
      and however early the buffers arrive: the reader emits what its walk prescribes, the numbers
      run from 0 without gap or repetition, and main takes exactly those buffers, which are what its
      own walk calls for. */
  method InStep(o: Options, w: World, es: seq<Entry>, deliver: seq<Buffer> -> seq<Buffer>,
                shuffle: seq<Buffer> -> seq<Buffer>, early: nat -> nat)
    returns (out: seq<Buffer>, taken: nat)
    requires o.block > 0 && WorldOk(o, w) && Proper(Flat(es)) && forall bs :: AllPassed(bs, deliver(bs))
    requires forall bs, b :: b in shuffle(bs) <==> b in bs
    ensures Emitted(out, AllShapes(o, w, ReaderVisits(Flat(es), {})), 0)
    ensures forall i :: 0 <= i < |out| ==> out[i].sequence == i
    ensures taken == |out| == |AllShapes(o, w, MainVisits(Flat(es), {}))|
  {
    hide AllShapes, ReaderVisits, MainVisits, Flat, WorldOk, Proper, SameSeen, Passed;
    var reader := new Reader(o);
    ghost var first := reader.out;
    reader.Scan(w, es);
    out := reader.out;
    assert out[|first|..] == out;
    var stream := deliver(out);
    ghost var ss := AllShapes(o, w, ReaderVisits(Flat(es), {}));
    StreamAt(out, stream, ss);
    assert SameSeen(Flat(es), {}, {}) by { NothingSeen(Flat(es)); }
    VisitsAgree(Flat(es), {}, {});
    var queue := new SeqQueue(shuffle(stream), early, stream);
    var main := new Main(o, queue);
    main.Scan(w, es);
    taken := queue.next;
  }

  lemma NothingSeen(es: seq<Entry>)
    ensures SameSeen(es, {}, {})
  {
  }
}
