/** Sequences without repetition and the order their elements come in. */
module LeavingOrder {

  ghost predicate NoDup<T>(s: seq<T>)
  {
    forall i, j :: 0 <= i < j < |s| ==> s[i] != s[j]
  }

  ghost predicate Precedes<T>(s: seq<T>, x: T, y: T)
  {
    exists i, j :: 0 <= i < j < |s| && s[i] == x && s[j] == y
  }

  lemma PrecedesAppend<T>(s: seq<T>, t: seq<T>, x: T, y: T)
    requires Precedes(s, x, y)
    ensures Precedes(s + t, x, y)
  {
    var i, j :| 0 <= i < j < |s| && s[i] == x && s[j] == y;
    assert (s + t)[i] == x && (s + t)[j] == y;
  }

  lemma PrecedesAt<T>(s: seq<T>, t: seq<T>, x: T, y: T)
    requires x in s
    ensures Precedes(s + [y] + t, x, y)
  {
    var i :| 0 <= i < |s| && s[i] == x;
    var r := s + [y] + t;
    assert r[i] == x && r[|s|] == y;
  }

  lemma PrecedesTail<T>(s: seq<T>, x: T, y: T)
    requires s != [] && x != s[0] && Precedes(s, x, y)
    ensures Precedes(s[1..], x, y)
  {
    var i, j :| 0 <= i < j < |s| && s[i] == x && s[j] == y;
    assert s[1..][i - 1] == x && s[1..][j - 1] == y;
  }

  lemma FirstHasNoneBefore<T>(s: seq<T>, x: T)
    requires s != [] && NoDup(s)
    ensures !Precedes(s, x, s[0])
  {
  }

  lemma PrecedesIsBefore<T>(s: seq<T>, x: T, y: T)
    requires NoDup(s) && Precedes(s, x, y)
    ensures x != y && x in s && y in s
  {
  }

  lemma NoDupSnoc<T>(s: seq<T>, x: T)
    requires NoDup(s) && x !in s
    ensures NoDup(s + [x])
  {
  }

  lemma NoDupTail<T>(s: seq<T>)
    requires NoDup(s) && s != []
    ensures NoDup(s[1..]) && s[0] !in s[1..]
  {
  }

  /** Inserting z does not disturb the order of the others. */
  lemma InsertPrecedes<T>(p: seq<T>, q: seq<T>, z: T, x: T, y: T)
    requires x != z && y != z
    ensures Precedes(p + q, x, y) <==> Precedes(p + [z] + q, x, y)
  {
    var s, t := p + q, p + [z] + q;
    if Precedes(s, x, y) {
      var i, j :| 0 <= i < j < |s| && s[i] == x && s[j] == y;
      var i', j' := if i < |p| then i else i + 1, if j < |p| then j else j + 1;
      assert t[i'] == x && t[j'] == y;
    }
    if Precedes(t, x, y) {
      var i, j :| 0 <= i < j < |t| && t[i] == x && t[j] == y;
      var i', j' := if i < |p| then i else i - 1, if j < |p| then j else j - 1;
      assert s[i'] == x && s[j'] == y;
    }
  }

  lemma InsertNoDup<T>(p: seq<T>, q: seq<T>, z: T)
    ensures NoDup(p + [z] + q) <==> NoDup(p + q) && z !in p + q
  {
    var s, t := p + q, p + [z] + q;
    if NoDup(t) {
      forall i, j | 0 <= i < j < |s|
        ensures s[i] != s[j]
      {
        var i', j' := if i < |p| then i else i + 1, if j < |p| then j else j + 1;
        assert t[i'] == s[i] && t[j'] == s[j];
      }
      forall i | 0 <= i < |s|
        ensures s[i] != z
      {
        assert t[|p|] == z && t[if i < |p| then i else i + 1] == s[i];
      }
    }
    if NoDup(s) && z !in s {
      forall i, j | 0 <= i < j < |t|
        ensures t[i] != t[j]
      {
        if i != |p| {
          assert t[i] == s[if i < |p| then i else i - 1];
        }
        if j != |p| {
          assert t[j] == s[if j < |p| then j else j - 1];
        }
      }
    }
  }

  /** Moving z from between p and q to between a and b keeps the elements, their
      distinctness and the order of all the others. */
  lemma Moved<T>(p: seq<T>, q: seq<T>, a: seq<T>, b: seq<T>, z: T)
    requires p + q == a + b && NoDup(p + [z] + q)
    ensures NoDup(a + [z] + b)
    ensures forall x :: x in a + [z] + b <==> x in p + [z] + q
    ensures forall x, y :: x != z && y != z && Precedes(p + [z] + q, x, y) ==> Precedes(a + [z] + b, x, y)
  {
    InsertNoDup(p, q, z);
    InsertNoDup(a, b, z);
    forall x
      ensures x in a + [z] + b <==> x in p + [z] + q
    {
      assert x in a + [z] + b <==> x in a + b || x == z;
      assert x in p + [z] + q <==> x in p + q || x == z;
    }
    forall x, y | x != z && y != z && Precedes(p + [z] + q, x, y)
      ensures Precedes(a + [z] + b, x, y)
    {
      InsertPrecedes(p, q, z, x, y);
      InsertPrecedes(a, b, z, x, y);
    }
  }

  /** The position of an element. */
  lemma SplitAt<T>(s: seq<T>, z: T) returns (p: seq<T>, q: seq<T>)
    requires z in s
    ensures s == p + [z] + q
  {
    var i :| 0 <= i < |s| && s[i] == z;
    p, q := s[..i], s[i + 1..];
  }

  function Without<T(==)>(s: seq<T>, z: T): seq<T>
  {
    if s == [] then [] else if s[0] == z then s[1..] else [s[0]] + Without(s[1..], z)
  }

  lemma {:induction false} WithoutIs<T>(p: seq<T>, q: seq<T>, z: T)
    requires z !in p
    ensures Without(p + [z] + q, z) == p + q
  {
    var s := p + [z] + q;
    if p == [] {
      assert s[1..] == q && p + q == q;
    } else {
      assert s[1..] == p[1..] + [z] + q;
      WithoutIs(p[1..], q, z);
      assert [p[0]] + (p[1..] + q) == p + q;
    }
  }

  /** Where z stands in a sequence without repetition, and what is left without it. */
  lemma TakeOut<T>(s: seq<T>, z: T) returns (p: seq<T>, q: seq<T>)
    requires z in s && NoDup(s)
    ensures s == p + [z] + q && Without(s, z) == p + q && z !in p + q
  {
    p, q := SplitAt(s, z);
    InsertNoDup(p, q, z);
    WithoutIs(p, q, z);
  }
}
