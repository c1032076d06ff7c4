/** Bytes, little-endian integers and the sequence facts the codecs share. */
module Bytes {

  type byte = x: int | 0 <= x < 256

  datatype Option<+T> = None | Some(value: T)

  /** 256 to the power k: how many values k bytes can hold. */
  function Span(k: nat): nat
  {
    if k == 0 then 1 else 256 * Span(k - 1)
  }

  /** The k low bytes of n, least significant first. */
  function PutLe(n: nat, k: nat): (s: seq<byte>)
    ensures |s| == k
    decreases k
  {
    if k == 0 then [] else [n % 256] + PutLe(n / 256, k - 1)
  }

  function GetLe(s: seq<byte>): nat
  {
    if s == [] then 0 else s[0] + 256 * GetLe(s[1..])
  }

  /** A number that fits in k bytes survives being stored and loaded. */
  lemma {:induction false} LeRoundTrip(n: nat, k: nat)
    requires n < Span(k)
    ensures GetLe(PutLe(n, k)) == n
    decreases k
  {
    if k > 0 {
      LeRoundTrip(n / 256, k - 1);
      assert PutLe(n, k)[1..] == PutLe(n / 256, k - 1);
    }
  }

  lemma Spans()
    ensures Span(1) == 0x100 && Span(2) == 0x1_0000 && Span(4) == 0x1_0000_0000
    ensures Span(8) == 0x1_0000_0000_0000_0000
  {
    assert Span(3) == 256 * Span(2);
    assert Span(5) == 256 * Span(4);
    assert Span(6) == 256 * Span(5);
    assert Span(7) == 256 * Span(6);
  }

  /** The two's complement image of a 16-bit signed number. */
  function PutS16(d: int): (s: seq<byte>)
    ensures |s| == 2
  {
    PutLe(d % 0x1_0000, 2)
  }

  function GetS16(s: seq<byte>): int
  {
    var n := GetLe(s);
    if n < 0x8000 then n else n - 0x1_0000
  }

  lemma S16RoundTrip(d: int)
    requires -0x8000 <= d < 0x8000
    ensures GetS16(PutS16(d)) == d
  {
    Spans();
    LeRoundTrip(d % 0x1_0000, 2);
  }

  /** Whether the bytes of part are found in whole at position p. */
  ghost predicate Holds<T>(whole: seq<T>, p: nat, part: seq<T>)
  {
    p + |part| <= |whole| && whole[p..p + |part|] == part
  }

  lemma HoldsPart<T>(whole: seq<T>, p: nat, a: seq<T>, b: seq<T>, c: seq<T>)
    requires Holds(whole, p, a + b + c)
    ensures Holds(whole, p + |a|, b)
  {
    var s := a + b + c;
    assert s[|a|..|a| + |b|] == b;
    assert whole[p..p + |s|][|a|..|a| + |b|] == whole[p + |a|..p + |a| + |b|];
  }

  lemma HoldsTrans<T>(whole: seq<T>, p: nat, mid: seq<T>, q: nat, part: seq<T>)
    requires Holds(whole, p, mid) && Holds(mid, q, part)
    ensures Holds(whole, p + q, part)
  {
    assert forall i | 0 <= i < |part| :: whole[p + q + i] == mid[q + i] == part[i];
  }

  lemma HoldsGrow<T>(a: seq<T>, b: seq<T>, p: nat, part: seq<T>)
    requires Holds(a, p, part)
    ensures Holds(a + b, p, part)
  {
    assert (a + b)[p..p + |part|] == a[p..p + |part|];
  }

  lemma HoldsSlice<T>(whole: seq<T>, p: nat, part: seq<T>, q: nat, len: nat)
    requires Holds(whole, p, part) && q + len <= |part|
    ensures whole[p + q..p + q + len] == part[q..q + len]
  {
    assert forall i | q <= i < q + len :: part[i] == whole[p + i];
  }

  lemma SliceSlice<T>(s: seq<T>, q: nat, n: nat, a: nat, b: nat)
    requires a <= b <= n && q + n <= |s|
    ensures s[q..q + n][a..b] == s[q + a..q + b]
  {
    var t := s[q..q + n];
    assert forall i | a <= i < b :: t[i] == s[q + i];
  }

  lemma TakeNext<T>(s: seq<T>, i: nat)
    requires i < |s|
    ensures s[..i + 1] == s[..i] + [s[i]]
  {
  }

  lemma Assoc<T>(a: seq<T>, b: seq<T>, c: seq<T>)
    ensures a + b + c == a + (b + c)
  {
  }

  lemma DropNext<T>(s: seq<T>, i: nat)
    requires i < |s|
    ensures s[i..] == [s[i]] + s[i + 1..] && s[i..][1..] == s[i + 1..] && s[i..][0] == s[i]
  {
  }

  lemma TakeTake<T>(s: seq<T>, i: nat, j: nat)
    requires i <= j <= |s|
    ensures s[..j][..i] == s[..i]
  {
  }

  lemma TakeAll<T>(s: seq<T>)
    ensures s[..|s|] == s && s[0..] == s && |s[|s|..]| == 0 && s[..0] == []
  {
  }

  function Flatten<T>(ss: seq<seq<T>>): seq<T>
  {
    if ss == [] then [] else Flatten(ss[..|ss| - 1]) + ss[|ss| - 1]
  }

  lemma {:induction false} FlattenAppend<T>(a: seq<seq<T>>, b: seq<seq<T>>)
    ensures Flatten(a + b) == Flatten(a) + Flatten(b)
    decreases |b|
  {
    if b == [] {
      assert a + b == a;
    } else {
      var b' := b[..|b| - 1];
      assert (a + b)[..|a + b| - 1] == a + b';
      FlattenAppend(a, b');
      Assoc(Flatten(a), Flatten(b'), b[|b| - 1]);
    }
  }
}
