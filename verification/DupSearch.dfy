/** Finding files stored before: the chain of recorded files, the search for a duplicate
    tail end in two phases, and the search for a duplicate of a whole file. The bytes a
    search compares come through the caches; that they are the stored ones is the subject
    of the pipeline modules. */
module DupSearch {
  import opened Bytes
  import opened Compressor
  import opened Checksum
  import opened LeavingOrder

  /** A recorded file: its size, the size word and the stored bytes of each block (none for
      a sparse block), its tail end in a fragment if any, and checksums that are computed
      when first needed. */
  class FileInfo {
    const fileSize: nat
    const words: seq<nat>
    const stored: seq<seq<byte>>
    const fragment: seq<byte>
    var haveSum: bool
    var sum: nat
    var haveFragSum: bool
    var fragSum: nat

    /** add_non_dup, as far as it fills in the record. */
    constructor (fileSize: nat, words: seq<nat>, stored: seq<seq<byte>>, fragment: seq<byte>,
                 haveSum: bool, sum: nat, haveFragSum: bool, fragSum: nat)
      requires BlocksOk(words, stored) && (haveSum ==> sum == Sum(Flatten(stored), 0))
      requires haveFragSum && fragment != [] ==> fragSum == Sum(fragment, 0)
      ensures Valid() && this.fileSize == fileSize && this.words == words && this.stored == stored &&
              this.fragment == fragment
    {
      this.fileSize, this.words, this.stored, this.fragment := fileSize, words, stored, fragment;
      this.haveSum, this.sum, this.haveFragSum, this.fragSum := haveSum, sum, haveFragSum, fragSum;
    }

    ghost predicate Valid()
      reads this
    {
      BlocksOk(words, stored) && (haveSum ==> sum == Sum(Flatten(stored), 0)) &&
      (haveFragSum && fragment != [] ==> fragSum == Sum(fragment, 0))
    }

    /** get_fragment_checksum: the recorded checksum, or that of the fetched bytes. */
    method FragmentChecksum() returns (r: nat)
      requires Valid()
      modifies this`haveFragSum, this`fragSum
      ensures Valid() && r == if fragment == [] then 0 else Sum(fragment, 0)
    {
      if fragment == [] {
        return 0;
      }
      if !haveFragSum {
        var s := GetChecksum(fragment, 0);
        fragSum, haveFragSum := s, true;
      }
      r := fragSum;
    }

    method BlockChecksum() returns (r: nat)
      requires Valid()
      modifies this`haveSum, this`sum
      ensures Valid() && r == Sum(Flatten(stored), 0)
    {
      if !haveSum {
        var s := ChecksumDisk(words, stored, |Flatten(stored)|);
        sum, haveSum := s, true;
      }
      r := sum;
    }
  }

  /** Each block's bytes are as long as its size word says. */
  ghost predicate BlocksOk(words: seq<nat>, stored: seq<seq<byte>>)
  {
    |words| == |stored| && forall i :: 0 <= i < |words| ==> |stored[i]| == DataWordSize(words[i])
  }

  /** get_checksum_disk: runs over the blocks until all the bytes are counted. */
  method ChecksumDisk(words: seq<nat>, stored: seq<seq<byte>>, l: nat) returns (sum: nat)
    requires BlocksOk(words, stored) && l == |Flatten(stored)|
    ensures sum == Sum(Flatten(stored), 0)
  {
    hide DataWordSize, Sum, Flatten;
    var i, left: int := 0, l;
    sum := 0;
    FlattenEnds(stored);
    while left != 0
      invariant 0 <= i <= |words| && sum == Sum(Flatten(stored[..i]), 0) && left == |Flatten(stored[i..])|
      decreases |words| - i
    {
      FlattenStep(stored, i);
      var n := DataWordSize(words[i]);
      if n != 0 {
        SumAppend(Flatten(stored[..i]), stored[i], 0);
        sum := GetChecksum(stored[i], sum);
        left := left - n;
      }
      i := i + 1;
    }
    FlattenAppend(stored[..i], stored[i..]);
    assert stored == stored[..i] + stored[i..];
    assert Flatten(stored[..i]) + Flatten(stored[i..]) == Flatten(stored[..i]);
  }

  lemma FlattenEnds(stored: seq<seq<byte>>)
    ensures Flatten(stored[..0]) == [] && Flatten(stored[0..]) == Flatten(stored) && Flatten(stored[|stored|..]) == []
    ensures Sum([], 0) == 0
  {
    assert stored[0..] == stored;
  }

  lemma FlattenStep(stored: seq<seq<byte>>, i: nat)
    requires i < |stored|
    ensures Flatten(stored[..i + 1]) == Flatten(stored[..i]) + stored[i]
    ensures stored[i] == [] ==> Flatten(stored[..i + 1]) == Flatten(stored[..i])
    ensures Flatten(stored[i..]) == stored[i] + Flatten(stored[i + 1..])
  {
    assert stored[..i + 1][..i] == stored[..i];
    var one := [stored[i]];
    assert one[..0] == [];
    assert Flatten(one) == Flatten(one[..0]) + stored[i];
    FlattenAppend(one, stored[i + 1..]);
    assert one + stored[i + 1..] == stored[i..];
  }

  // ---------- tail ends ----------

  ghost predicate AllValid(chain: seq<FileInfo>)
    reads chain
  {
    forall i :: 0 <= i < |chain| ==> chain[i].Valid()
  }

  /** The recorded file consists of exactly these bytes in a fragment. */
  predicate SameTail(e: FileInfo, data: seq<byte>)
  {
    e.fileSize == |data| && e.fragment == data
  }

  /** Compares one record: the checksum first, then the bytes. */
  method CompareTail(e: FileInfo, data: seq<byte>, checksum: nat) returns (same: bool)
    requires e.Valid() && data != [] && checksum == Sum(data, 0)
    modifies e
    ensures e.Valid() && same == SameTail(e, data)
  {
    if e.fileSize != |data| || |e.fragment| != |data| {
      return false;
    }
    var sum := e.FragmentChecksum();
    if sum != checksum {
      return false;
    }
    same := e.fragment == data;
  }

  /** The scan a fragment thread makes from the head it has seen. */
  method PreScan(snapshot: seq<FileInfo>, data: seq<byte>, checksum: nat) returns (found: Option<FileInfo>)
    requires AllValid(snapshot) && data != [] && checksum == Sum(data, 0)
    modifies snapshot
    ensures AllValid(snapshot)
    ensures found.Some? ==> found.value in snapshot && SameTail(found.value, data)
    ensures found.None? ==> forall e :: e in snapshot ==> !SameTail(e, data)
  {
    for i := 0 to |snapshot|
      invariant AllValid(snapshot)
      invariant forall k :: 0 <= k < i ==> !SameTail(snapshot[k], data)
    {
      var same := CompareTail(snapshot[i], data, checksum);
      if same {
        return Some(snapshot[i]);
      }
    }
    return None;
  }

  /** frag_duplicate: main takes over what the thread found, or looks at the records that
      are newer than the head the thread started from. */
  method FragDuplicate(chain: seq<FileInfo>, start: Option<FileInfo>, found: Option<FileInfo>, data: seq<byte>,
                       checksum: nat, ghost snapshot: seq<FileInfo>)
    returns (hit: Option<FileInfo>)
    requires AllValid(chain) && NoDup(chain) && data != [] && checksum == Sum(data, 0)
    requires |snapshot| <= |chain| && chain[|chain| - |snapshot|..] == snapshot
    requires start == if snapshot == [] then None else Some(snapshot[0])
    requires found.Some? ==> found.value in snapshot && SameTail(found.value, data)
    requires found.None? ==> forall e :: e in snapshot ==> !SameTail(e, data)
    modifies chain
    ensures AllValid(chain)
    ensures hit.Some? <==> exists e :: e in chain && SameTail(e, data)
    ensures hit.Some? ==> hit.value in chain && SameTail(hit.value, data)
  {
    ghost var n := |chain| - |snapshot|;
    assert forall k :: n <= k < |chain| ==> chain[k] == snapshot[k - n];
    assert forall k :: 0 <= k < |snapshot| ==> snapshot[k] == chain[n + k];
    if found.Some? {
      return found;
    }
    var i := 0;
    while i < |chain| && Some(chain[i]) != start
      invariant 0 <= i <= n && AllValid(chain)
      invariant forall k :: 0 <= k < i ==> !SameTail(chain[k], data)
    {
      assert i < n;
      var same := CompareTail(chain[i], data, checksum);
      if same {
        return Some(chain[i]);
      }
      i := i + 1;
    }
    assert i == n;
    forall e | e in chain
      ensures !SameTail(e, data)
    {
      var k :| 0 <= k < |chain| && chain[k] == e;
      if k >= n {
        assert e == snapshot[k - n];
      }
    }
    return None;
  }

  // ---------- whole files ----------

  /** A file that has just been laid out. */
  datatype Laid = Laid(fileSize: nat, words: seq<nat>, stored: seq<seq<byte>>, tail: seq<byte>)

  /** The record has the same size, the same size words, the same stored bytes and the same
      tail end. */
  predicate SameFile(e: FileInfo, f: Laid)
  {
    e.fileSize == f.fileSize && e.words == f.words && e.stored == f.stored && e.fragment == f.tail
  }

  /** Compares the stored blocks one by one, skipping sparse ones. */
  method CompareBlocks(words: seq<nat>, a: seq<seq<byte>>, b: seq<seq<byte>>) returns (same: bool)
    requires BlocksOk(words, a) && BlocksOk(words, b)
    ensures same == (a == b)
  {
    for i := 0 to |words|
      invariant forall k :: 0 <= k < i ==> a[k] == b[k]
    {
      if DataWordSize(words[i]) != 0 && a[i] != b[i] {
        return false;
      }
    }
    same := true;
  }

  /** duplicate: finds a record of the same file exactly when there is one. */
  method Duplicate(chain: seq<FileInfo>, f: Laid, tailSum: nat) returns (hit: Option<FileInfo>)
    requires AllValid(chain) && BlocksOk(f.words, f.stored) && tailSum == (if f.tail == [] then 0 else Sum(f.tail, 0))
    modifies chain
    ensures AllValid(chain)
    ensures hit.Some? <==> exists e :: e in chain && SameFile(e, f)
    ensures hit.Some? ==> hit.value in chain && SameFile(hit.value, f)
  {
    var bytes := |Flatten(f.stored)|;
    var sum: Option<nat> := None;
    for i := 0 to |chain|
      invariant AllValid(chain) && (sum.Some? ==> sum.value == Sum(Flatten(f.stored), 0))
      invariant forall k :: 0 <= k < i ==> !SameFile(chain[k], f)
    {
      var e := chain[i];
      if e.fileSize == f.fileSize && |Flatten(e.stored)| == bytes && |e.fragment| == |f.tail| && e.words == f.words {
        if sum.None? {
          var s := ChecksumDisk(f.words, f.stored, bytes);
          sum := Some(s);
        }
        var esum := e.BlockChecksum();
        var efrag := e.FragmentChecksum();
        if esum == sum.value && efrag == tailSum {
          var same := CompareBlocks(f.words, f.stored, e.stored);
          if same && e.fragment == f.tail {
            assert SameFile(chain[i], f) && chain[i] in chain;
            return Some(e);
          }
        }
      }
    }
    return None;
  }
}
