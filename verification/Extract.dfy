/** The writer thread of unsquashfs: turning queued blocks into a file, with holes. */
module Extract {
  import opened Bytes

  function Zeros(n: nat): (r: seq<byte>)
    ensures |r| == n && forall i :: 0 <= i < n ==> r[i] == 0
  {
    if n == 0 then [] else Zeros(n - 1) + [0]
  }

  lemma ZerosAdd(a: nat, b: nat)
    ensures Zeros(a) + Zeros(b) == Zeros(a + b)
  {
  }

  /** A queued block: a hole, a block that could not be read, or bytes to be written. */
  datatype Req = Hole(size: nat) | Failed(size: nat) | Bytes(data: seq<byte>, offset: nat, size: nat)

  predicate ReqOk(r: Req) { r.Bytes? ==> r.offset + r.size <= |r.data| }

  function Meaning(r: Req): (s: seq<byte>)
    requires ReqOk(r) && !r.Failed?
    ensures |s| == r.size
  {
    match r
    case Hole(n) => Zeros(n)
    case Bytes(data, offset, size) => data[offset..offset + size]
  }

  ghost predicate AllGood(rs: seq<Req>) { forall i :: 0 <= i < |rs| ==> ReqOk(rs[i]) && !rs[i].Failed? }

  /** The file the queued blocks stand for. */
  ghost function Whole(rs: seq<Req>): seq<byte>
    requires AllGood(rs)
  {
    if rs == [] then [] else Whole(rs[..|rs| - 1]) + Meaning(rs[|rs| - 1])
  }

  lemma {:induction false} WholeAppend(a: seq<Req>, b: seq<Req>)
    requires AllGood(a) && AllGood(b)
    ensures AllGood(a + b) && Whole(a + b) == Whole(a) + Whole(b)
    decreases |b|
  {
    hide Meaning, ReqOk;
    if b == [] {
      assert a + b == a;
      assert Whole(a) + [] == Whole(a);
    } else {
      var n := |b| - 1;
      assert (a + b)[..|a + b| - 1] == a + b[..n];
      WholeAppend(a, b[..n]);
      Assoc(Whole(a), Whole(b[..n]), Meaning(b[n]));
    }
  }

  /** An output file: its bytes and the write position, which may be past the end. */
  class OutFile {
    var data: seq<byte>
    var pos: nat

    constructor ()
      ensures data == [] && pos == 0
    {
      data, pos := [], 0;
    }

    /** What the file will hold up to the write position. */
    ghost function View(): seq<byte>
      reads this
      requires |data| <= pos
    {
      data + Zeros(pos - |data|)
    }

    method Write(b: seq<byte>)
      requires |data| <= pos
      modifies this
      ensures |data| == pos && View() == old(View()) + b && data == View()
    {
      data := data + Zeros(pos - |data|) + b;
      pos := |data|;
    }

    /** lseek past the end may fail. */
    method Seek(n: nat) returns (ok: bool)
      requires |data| <= pos
      modifies this`pos
      ensures |data| <= pos && View() == old(View()) + (if ok then Zeros(n) else [])
    {
      ok := *;
      if ok {
        ZerosAdd(pos - |data|, n);
        pos := pos + n;
        assert data + Zeros(pos - n - |data|) + Zeros(n) == data + Zeros(pos - |data|);
      } else {
        assert old(View()) + [] == View();
      }
    }

    method Truncate(n: nat)
      requires |data| <= pos
      modifies this`data
      ensures |data| == n && (n == pos ==> data == old(View()))
    {
      data := if n <= |data| then data[..n] else data + Zeros(n - |data|);
    }
  }

  class Writer {
    const block: nat
    var broken: bool

    constructor (block: nat)
      ensures this.block == block
    {
      this.block, broken := block, false;
    }

    /** Writes a hole as zeros, a block at a time. */
    method WriteZeros(file: OutFile, hole: nat)
      requires block > 0 && |file.data| <= file.pos
      modifies file
      ensures |file.data| <= file.pos && file.View() == old(file.View()) + Zeros(hole)
    {
      var left := hole;
      ghost var before := file.View();
      assert before + Zeros(0) == before;
      while left > 0
        invariant 0 <= left <= hole && |file.data| <= file.pos && file.View() == before + Zeros(hole - left)
      {
        var n := if left > block then block else left;
        ZerosAdd(hole - left, n);
        Assoc(before, Zeros(hole - left), Zeros(n));
        file.Write(Zeros(n));
        left := left - n;
      }
    }

    /** write_block: fills the hole before the data by seeking or with zeros. */
    method WriteBlock(file: OutFile, b: seq<byte>, hole: nat, sparse: bool)
      requires block > 0 && |file.data| <= file.pos
      modifies this`broken, file
      ensures |file.data| == file.pos && file.data == old(file.View()) + Zeros(hole) + b
    {
      ghost var before := file.View();
      var done := false;
      if hole > 0 {
        if sparse && !broken {
          done := file.Seek(hole);
          if !done {
            broken := true;
            assert before + [] == before;
          }
        }
        if !sparse || broken {
          WriteZeros(file, hole);
        }
      } else {
        assert before + Zeros(0) == before;
      }
      file.Write(b);
    }

    /** The blocks of one file up to a final hole. */
    method WriteBlocks(file: OutFile, reqs: seq<Req>, sparse: bool) returns (hole: nat, failed: bool)
      requires block > 0 && (forall i :: 0 <= i < |reqs| ==> ReqOk(reqs[i])) && file.data == [] && file.pos == 0
      modifies this`broken, file
      ensures (failed <==> exists i :: 0 <= i < |reqs| && reqs[i].Failed?) && |file.data| <= file.pos
      ensures !failed ==> AllGood(reqs) && file.View() + Zeros(hole) == Whole(reqs) && |file.data| == file.pos
    {
      hide Whole;
      failed, hole := false, 0;
      NothingWhole();
      for i := 0 to |reqs|
        invariant (failed <==> exists k :: 0 <= k < i && reqs[k].Failed?) && |file.data| <= file.pos
        invariant !failed ==>
                    AllGood(reqs[..i]) && file.View() + Zeros(hole) == Whole(reqs[..i]) && |file.data| == file.pos
      {
        ghost var v := if !failed then file.View() else [];
        if !failed && !reqs[i].Failed? {
          WholeNext(reqs, i);
        }
        match reqs[i] {
          case Hole(n) =>
            ZerosAdd(hole, n);
            Assoc(v, Zeros(hole), Zeros(n));
            hole := hole + n;
          case Failed(_) =>
            failed := true;
          case Bytes(data, offset, size) =>
            if !failed {
              WriteBlock(file, data[offset..offset + size], hole, sparse);
              hole := 0;
              assert file.data + Zeros(0) + Zeros(0) == file.data;
            }
        }
      }
      TakeAll(reqs);
    }

    /** writer: one file, with the corner case of a hole at its end. */
    method WriteFile(reqs: seq<Req>, fileSize: nat, sparse: bool) returns (file: OutFile, failed: bool)
      requires block > 0 && forall i :: 0 <= i < |reqs| ==> ReqOk(reqs[i])
      modifies this`broken
      ensures fresh(file) && (failed <==> exists i :: 0 <= i < |reqs| && reqs[i].Failed?)
      ensures !failed && fileSize == |Whole(reqs)| ==> file.data == Whole(reqs)
    {
      hide Whole, ReqOk;
      file := new OutFile();
      var hole;
      hole, failed := WriteBlocks(file, reqs, sparse);
      if !failed {
        assert file.View() == file.data by { assert file.data + Zeros(0) == file.data; }
      }
      if hole > 0 && !failed {
        var ok := false;
        if sparse {
          ok := file.Seek(hole);
        }
        if !ok {
          ghost var v := file.View();
          WriteBlock(file, [0], hole - 1, sparse);
          assert Zeros(hole - 1) + [0] == Zeros(hole);
          Assoc(v, Zeros(hole - 1), [0]);
        } else {
          file.Truncate(fileSize);
        }
      }
    }
  }

  lemma NothingWhole()
    ensures AllGood([]) && Whole([]) == []
  {
  }

  lemma WholeNext(reqs: seq<Req>, i: nat)
    requires i < |reqs| && AllGood(reqs[..i]) && ReqOk(reqs[i]) && !reqs[i].Failed?
    ensures AllGood(reqs[..i + 1]) && Whole(reqs[..i + 1]) == Whole(reqs[..i]) + Meaning(reqs[i])
  {
    TakeTake(reqs, i, i + 1);
    assert forall k :: 0 <= k < i ==> reqs[..i][k] == reqs[k];
  }
}
