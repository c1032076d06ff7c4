/** The 16-bit BSD checksum used as a filter in every duplicate search. */
module Checksum {
  import opened Bytes

  /** One step: rotate right by one within 16 bits, then add the byte. */
  function Step(sum: nat, b: byte): (r: nat)
    ensures r < 0x1_0000
  {
    (sum / 2 + (if sum % 2 == 1 then 0x8000 else 0) + b) % 0x1_0000
  }

  function Sum(data: seq<byte>, sum: nat): nat
  {
    if data == [] then sum else Step(Sum(data[..|data| - 1], sum), data[|data| - 1])
  }

  method GetChecksum(data: seq<byte>, sum0: nat) returns (sum: nat)
    ensures sum == Sum(data, sum0)
  {
    sum := sum0;
    for i := 0 to |data|
      invariant sum == Sum(data[..i], sum0)
    {
      assert data[..i + 1][..i] == data[..i];
      sum := Step(sum, data[i]);
    }
    assert data[..|data|] == data;
  }

  predicate AllZero(data: seq<byte>)
  {
    forall i :: 0 <= i < |data| ==> data[i] == 0
  }

  /** checksum_sparse adds only non-zero bytes and reports whether there were none: the
      sum is the same as get_checksum's, so the filter never rejects a true match. */
  method ChecksumSparse(data: seq<byte>) returns (sum: nat, sparse: bool)
    ensures sum == Sum(data, 0) && sparse == AllZero(data)
  {
    sum, sparse := 0, true;
    for i := 0 to |data|
      invariant sum == Sum(data[..i], 0) && sum < 0x1_0000
      invariant sparse == AllZero(data[..i])
    {
      assert data[..i + 1][..i] == data[..i];
      assert AllZero(data[..i + 1]) <==> AllZero(data[..i]) && data[..i + 1][i] == 0;
      sum := sum / 2 + if sum % 2 == 1 then 0x8000 else 0;
      if data[i] != 0 {
        sparse := false;
        sum := (sum + data[i]) % 0x1_0000;
      }
    }
    assert data[..|data|] == data;
  }

  /** The checksum of a concatenation can be computed piece by piece. */
  lemma {:induction false} SumAppend(a: seq<byte>, b: seq<byte>, sum: nat)
    ensures Sum(a + b, sum) == Sum(b, Sum(a, sum))
    decreases |b|
  {
    if b == [] {
      assert a + b == a;
    } else {
      var n := |b| - 1;
      assert (a + b)[..|a + b| - 1] == a + b[..n];
      SumAppend(a, b[..n], sum);
    }
  }
}
