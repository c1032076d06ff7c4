/** Sorting the linked list of directory entries: a bottom-up merge that relinks the list
    in place, proved to be a stable sort. */
module SortDirectory {
  import opened Bytes
  import opened Names
  import opened LeavingOrder

  class Node {
    const name: seq<byte>
    var next: Node?

    constructor (name: seq<byte>)
      ensures this.name == name && next == null
    {
      this.name := name;
      next := null;
    }
  }

  // ---------- the order the sort promises ----------

  /** strcmp(a->name, b->name) <= 0 */
  predicate Before(a: Node, b: Node)
  {
    !Less(b.name, a.name)
  }

  lemma BeforeIs(a: Node, b: Node)
    ensures Before(a, b) <==> !Less(b.name, a.name)
  {
  }

  ghost predicate Ordered(s: seq<Node>)
  {
    forall i, j :: 0 <= i < j < |s| ==> Before(s[i], s[j])
  }

  /** The entries of one name, in list order. */
  ghost function OfName(s: seq<Node>, name: seq<byte>): seq<Node>
  {
    if s == [] then [] else (if s[0].name == name then [s[0]] else []) + OfName(s[1..], name)
  }

  /** A reordering that keeps entries of equal name in their order. */
  ghost predicate StableOf(s: seq<Node>, t: seq<Node>)
  {
    forall name :: OfName(s, name) == OfName(t, name)
  }

  lemma BeforeTransitive(a: Node, b: Node, c: Node)
    requires Before(a, b) && Before(b, c)
    ensures Before(a, c)
  {
    if Less(c.name, a.name) {
      LessTotal(a.name, b.name);
      if Less(a.name, b.name) {
        LessTransitive(c.name, a.name, b.name);
      }
    }
  }

  lemma BeforeTotal(a: Node, b: Node)
    requires !Before(a, b)
    ensures Before(b, a) && a.name != b.name
  {
    LessAsymmetric(b.name, a.name);
    LessIrreflexive(a.name);
  }

  lemma {:induction false} OfNameAppend(s: seq<Node>, t: seq<Node>, name: seq<byte>)
    ensures OfName(s + t, name) == OfName(s, name) + OfName(t, name)
  {
    if s == [] {
      assert s + t == t;
    } else {
      assert (s + t)[1..] == s[1..] + t;
      OfNameAppend(s[1..], t, name);
      Assoc(if s[0].name == name then [s[0]] else [], OfName(s[1..], name), OfName(t, name));
    }
  }

  lemma {:induction false} OfNameNone(s: seq<Node>, name: seq<byte>)
    requires forall i :: 0 <= i < |s| ==> s[i].name != name
    ensures OfName(s, name) == []
  {
    if s != [] {
      OfNameNone(s[1..], name);
    }
  }

  /** A stable reordering holds the same entries, each as often. */
  lemma StableKeepsEntries(s: seq<Node>, t: seq<Node>)
    requires StableOf(s, t)
    ensures multiset(s) == multiset(t)
  {
    forall x: Node | x in s + t
      ensures multiset(s)[x] == multiset(t)[x]
    {
      OfNameCount(s, x);
      OfNameCount(t, x);
      assert OfName(s, x.name) == OfName(t, x.name);
    }
    assert forall x :: x in multiset(s) + multiset(t) ==> x in s + t;
  }

  lemma {:induction false} OfNameCount(s: seq<Node>, x: Node)
    ensures multiset(OfName(s, x.name))[x] == multiset(s)[x]
  {
    if s != [] {
      OfNameCount(s[1..], x);
      assert s == [s[0]] + s[1..];
    }
  }

  // ---------- the merge on values ----------

  function Merge(a: seq<Node>, b: seq<Node>): (r: seq<Node>)
    ensures |r| == |a| + |b|
  {
    if a == [] then b
    else if b == [] then a
    else if Before(a[0], b[0]) then [a[0]] + Merge(a[1..], b)
    else [b[0]] + Merge(a, b[1..])
  }

  function Min(a: nat, b: nat): nat { if a <= b then a else b }

  /** One pass: adjacent runs of the stride merged into runs of twice the stride. */
  function Pass(s: seq<Node>, stride: nat): (r: seq<Node>)
    requires stride > 0
    ensures |r| == |s|
    decreases |s|
  {
    if s == [] then [] else
      var m := Min(stride, |s|);
      var n := Min(stride, |s| - m);
      Merge(s[..m], s[m..m + n]) + Pass(s[m + n..], stride)
  }

  function Passes(s: seq<Node>, stride: nat, count: int): seq<Node>
    requires stride > 0
    decreases count - stride
  {
    var t := Pass(s, stride);
    if 2 * stride < count then Passes(t, 2 * stride, count) else t
  }

  function SortResult(s: seq<Node>, count: int): seq<Node>
  {
    if s == [] || count < 2 then s else Passes(s, 1, count)
  }

  lemma {:induction false} MergeMember(a: seq<Node>, b: seq<Node>, x: Node)
    ensures x in Merge(a, b) <==> x in a || x in b
    decreases |a| + |b|
  {
    if a != [] && b != [] {
      if Before(a[0], b[0]) {
        MergeMember(a[1..], b, x);
        assert a == [a[0]] + a[1..];
      } else {
        MergeMember(a, b[1..], x);
        assert b == [b[0]] + b[1..];
      }
    }
  }

  lemma OrderedCons(x: Node, s: seq<Node>)
    requires Ordered(s) && forall y :: y in s ==> Before(x, y)
    ensures Ordered([x] + s)
  {
    var t := [x] + s;
    forall i, j | 0 <= i < j < |t|
      ensures Before(t[i], t[j])
    {
      assert t[j] == s[j - 1];
      if i > 0 {
        assert t[i] == s[i - 1];
      }
    }
  }

  lemma HeadBeforeAll(s: seq<Node>, y: Node)
    requires s != [] && Ordered(s) && y in s
    ensures Before(s[0], y)
  {
    LessIrreflexive(y.name);
    var i :| 0 <= i < |s| && s[i] == y;
  }

  lemma {:induction false} MergeOrdered(a: seq<Node>, b: seq<Node>)
    requires Ordered(a) && Ordered(b)
    ensures Ordered(Merge(a, b))
    decreases |a| + |b|
  {
    hide Before;
    if a != [] && b != [] {
      var r := Merge(a, b);
      if Before(a[0], b[0]) {
        MergeOrdered(a[1..], b);
        forall y | y in Merge(a[1..], b)
          ensures Before(a[0], y)
        {
          MergeMember(a[1..], b, y);
          if y in a[1..] {
            HeadBeforeAll(a, y);
          } else {
            HeadBeforeAll(b, y);
            BeforeTransitive(a[0], b[0], y);
          }
        }
        OrderedCons(a[0], Merge(a[1..], b));
      } else {
        MergeOrdered(a, b[1..]);
        BeforeTotal(a[0], b[0]);
        forall y | y in Merge(a, b[1..])
          ensures Before(b[0], y)
        {
          MergeMember(a, b[1..], y);
          if y in b[1..] {
            HeadBeforeAll(b, y);
          } else {
            HeadBeforeAll(a, y);
            BeforeTransitive(b[0], a[0], y);
          }
        }
        OrderedCons(b[0], Merge(a, b[1..]));
      }
    }
  }

  /** When the second run's head goes first, no entry of the first run has its name. */
  lemma NoneEqual(a: seq<Node>, x: Node)
    requires a != [] && Ordered(a) && !Before(a[0], x)
    ensures OfName(a, x.name) == []
  {
    forall i | 0 <= i < |a|
      ensures a[i].name != x.name
    {
      HeadBeforeAll(a, a[i]);
    }
    OfNameNone(a, x.name);
  }

  lemma OfNameCons(x: Node, s: seq<Node>, name: seq<byte>)
    ensures OfName([x] + s, name) == (if x.name == name then [x] else []) + OfName(s, name)
  {
    assert ([x] + s)[1..] == s;
  }

  lemma OfNameNothing(name: seq<byte>)
    ensures OfName([], name) == []
  {
  }

  lemma {:induction false} MergeStable(a: seq<Node>, b: seq<Node>, name: seq<byte>)
    requires Ordered(a)
    ensures OfName(Merge(a, b), name) == OfName(a, name) + OfName(b, name)
    decreases |a| + |b|
  {
    hide Before, OfName;
    OfNameNothing(name);
    if a != [] && b != [] {
      if Before(a[0], b[0]) {
        MergeStable(a[1..], b, name);
        OfNameCons(a[0], Merge(a[1..], b), name);
        OfNameCons(a[0], a[1..], name);
        assert a == [a[0]] + a[1..];
      } else {
        MergeStable(a, b[1..], name);
        OfNameCons(b[0], Merge(a, b[1..]), name);
        OfNameCons(b[0], b[1..], name);
        assert b == [b[0]] + b[1..];
        NoneEqual(a, b[0]);
      }
    }
  }

  // ---------- runs ----------

  /** Every aligned run of the stride is ordered. */
  ghost predicate RunsOrdered(s: seq<Node>, stride: nat)
    requires stride > 0
    decreases |s|
  {
    if |s| <= stride then Ordered(s) else Ordered(s[..stride]) && RunsOrdered(s[stride..], stride)
  }

  lemma {:induction false} SingleRuns(s: seq<Node>)
    ensures RunsOrdered(s, 1)
    decreases |s|
  {
    if |s| > 1 {
      SingleRuns(s[1..]);
    }
  }

  lemma RunsSplit(s: seq<Node>, stride: nat)
    requires stride > 0 && s != [] && RunsOrdered(s, stride)
    ensures var m := Min(stride, |s|);
            var n := Min(stride, |s| - m);
            Ordered(s[..m]) && Ordered(s[m..m + n]) && RunsOrdered(s[m + n..], stride)
  {
    hide Ordered;
    var m := Min(stride, |s|);
    var n := Min(stride, |s| - m);
    if |s| <= stride {
      assert s[..m] == s && s[m..m + n] == [];
      assert Ordered([]) by { NothingOrdered(); }
      assert s[m + n..] == [];
    } else {
      var t := s[stride..];
      if |t| <= stride {
        assert s[m..m + n] == t && s[m + n..] == [];
        assert Ordered([]) by { NothingOrdered(); }
      } else {
        assert s[m..m + n] == t[..stride] && s[m + n..] == t[stride..];
      }
    }
  }

  lemma NothingOrdered()
    ensures Ordered([])
  {
  }

  lemma RunsJoin(a: seq<Node>, t: seq<Node>, stride: nat)
    requires stride > 0 && Ordered(a) && RunsOrdered(t, stride) && |a| <= stride && (|a| < stride ==> t == [])
    ensures RunsOrdered(a + t, stride)
  {
    hide Ordered;
    if t == [] {
      assert a + t == a;
    } else {
      assert (a + t)[..stride] == a && (a + t)[stride..] == t;
    }
  }

  /** A pass doubles the length of the ordered runs and keeps equal names in order. */
  lemma {:induction false} PassDoubles(s: seq<Node>, stride: nat)
    requires stride > 0 && RunsOrdered(s, stride)
    ensures RunsOrdered(Pass(s, stride), 2 * stride)
    decreases |s|
  {
    hide Ordered, Merge;
    if s == [] {
      assert Ordered([]) by { NothingOrdered(); }
    } else {
      var m := Min(stride, |s|);
      var n := Min(stride, |s| - m);
      RunsSplit(s, stride);
      MergeOrdered(s[..m], s[m..m + n]);
      PassDoubles(s[m + n..], stride);
      RunsJoin(Merge(s[..m], s[m..m + n]), Pass(s[m + n..], stride), 2 * stride);
    }
  }

  lemma {:induction false} PassStable(s: seq<Node>, stride: nat, name: seq<byte>)
    requires stride > 0 && RunsOrdered(s, stride)
    ensures OfName(Pass(s, stride), name) == OfName(s, name)
    decreases |s|
  {
    hide Ordered, Merge, OfName, RunsOrdered;
    if s != [] {
      var m := Min(stride, |s|);
      var n := Min(stride, |s| - m);
      var a, b, t := s[..m], s[m..m + n], s[m + n..];
      RunsSplit(s, stride);
      MergeStable(a, b, name);
      PassStable(t, stride, name);
      OfNameAppend(Merge(a, b), Pass(t, stride), name);
      OfNameAppend(a, b, name);
      OfNameAppend(a + b, t, name);
      assert s == a + b + t;
    }
  }

  lemma {:induction false} PassesSort(s: seq<Node>, stride: nat, count: int)
    requires stride > 0 && RunsOrdered(s, stride)
    ensures StableOf(s, Passes(s, stride, count))
    ensures count >= |s| ==> Ordered(Passes(s, stride, count))
    ensures |Passes(s, stride, count)| == |s|
    decreases count - stride
  {
    hide Ordered, OfName, Pass;
    var t := Pass(s, stride);
    PassDoubles(s, stride);
    forall name
      ensures OfName(s, name) == OfName(t, name)
    {
      PassStable(s, stride, name);
    }
    if 2 * stride < count {
      PassesSort(t, 2 * stride, count);
    }
  }

  /** The sort keeps every entry, keeps entries of equal name in order, and puts the names
      in strcmp order whenever the count is not below the length of the list. */
  lemma SortIsStableSort(s: seq<Node>, count: int)
    ensures StableOf(s, SortResult(s, count)) && multiset(s) == multiset(SortResult(s, count))
    ensures count >= |s| ==> Ordered(SortResult(s, count))
  {
    hide Passes, OfName;
    if s != [] && count >= 2 {
      SingleRuns(s);
      PassesSort(s, 1, count);
    }
    StableKeepsEntries(s, SortResult(s, count));
  }

  // ---------- the sort in place ----------

  ghost predicate Apart(s: seq<Node>, t: seq<Node>)
  {
    forall x :: x in s ==> x !in t
  }

  ghost predicate AllApart(out: seq<Node>, a: seq<Node>, rest: seq<Node>)
  {
    NoDup(out) && NoDup(a) && NoDup(rest) && Apart(out, a) && Apart(out, rest) && Apart(a, rest)
  }

  lemma MoveApart(out: seq<Node>, a: seq<Node>, rest: seq<Node>)
    requires a != [] && AllApart(out, a, rest)
    ensures AllApart(out + [a[0]], a[1..], rest)
  {
    var o, b := out + [a[0]], a[1..];
    forall i, j | 0 <= i < j < |o|
      ensures o[i] != o[j]
    {
      assert o[i] == out[i] && out[i] in out;
      if j < |out| {
        assert o[j] == out[j];
      }
    }
    forall i, j | 0 <= i < j < |b|
      ensures b[i] != b[j]
    {
      assert b[i] == a[i + 1] && b[j] == a[j + 1];
    }
    assert a == [a[0]] + b;
    assert a[0] !in b;
  }

  /** The nodes are linked in this order; where the last one points is left open. */
  ghost predicate Links(s: seq<Node>)
    reads s
  {
    forall i :: 0 <= i < |s| - 1 ==> s[i].next == s[i + 1]
  }

  ghost predicate Chain(head: Node?, s: seq<Node>)
    reads s
  {
    if s == [] then head == null else head == s[0] && Links(s) && s[|s| - 1].next == null
  }

  lemma ChainRest(head: Node, s: seq<Node>)
    requires s != [] && Chain(head, s)
    ensures Chain(head.next, s[1..])
  {
  }

  ghost predicate Inside(s: seq<Node>, nodes: set<Node>)
  {
    forall x :: x in s ==> x in nodes
  }

  lemma CutApart(out: seq<Node>, rest: seq<Node>, m: nat)
    requires m <= |rest| && AllApart(out, [], rest)
    ensures AllApart(out, rest[..m], rest[m..])
  {
    var a, t := rest[..m], rest[m..];
    forall i, j | 0 <= i < |a| && 0 <= j < |t|
      ensures a[i] != t[j]
    {
      assert t[j] == rest[m + j];
    }
    forall i, j | 0 <= i < j < |t|
      ensures t[i] != t[j]
    {
      assert t[i] == rest[m + i] && t[j] == rest[m + j];
    }
  }

  // What a pass still has to add, in the middle of a merge.

  ghost function Remaining(out: seq<Node>, a: seq<Node>, rest: seq<Node>, len2: nat, stride: nat): seq<Node>
    requires stride > 0
  {
    var m := Min(len2, |rest|);
    out + Merge(a, rest[..m]) + Pass(rest[m..], stride)
  }

  lemma RemainingIs(out: seq<Node>, a: seq<Node>, b: seq<Node>, t: seq<Node>, len2: nat, stride: nat)
    requires stride > 0 && |b| == Min(len2, |b + t|)
    ensures Remaining(out, a, b + t, len2, stride) == out + Merge(a, b) + Pass(t, stride)
  {
    hide Merge, Pass;
    assert (b + t)[..|b|] == b && (b + t)[|b|..] == t;
  }

  lemma CutTwo(s: seq<Node>, m: nat, n: nat)
    requires m + n <= |s|
    ensures s[m..] == s[m..m + n] + s[m + n..]
  {
  }

  lemma RemainingStart(out: seq<Node>, rest: seq<Node>, stride: nat)
    requires stride > 0 && rest != []
    ensures var m := Min(stride, |rest|);
            Remaining(out, rest[..m], rest[m..], stride, stride) == out + Pass(rest, stride)
  {
    hide Merge, Pass, Remaining;
    var m := Min(stride, |rest|);
    var n := Min(stride, |rest| - m);
    var a, b, t := rest[..m], rest[m..m + n], rest[m + n..];
    PassUnfold(rest, stride);
    CutTwo(rest, m, n);
    RemainingIs(out, a, b, t, stride, stride);
    Assoc(out, Merge(a, b), Pass(t, stride));
  }

  lemma PassUnfold(s: seq<Node>, stride: nat)
    requires stride > 0 && s != []
    ensures var m := Min(stride, |s|);
            var n := Min(stride, |s| - m);
            Pass(s, stride) == Merge(s[..m], s[m..m + n]) + Pass(s[m + n..], stride)
  {
    hide Merge;
  }

  lemma MergeStep(a: seq<Node>, b: seq<Node>)
    ensures a != [] && (b == [] || Before(a[0], b[0])) ==> Merge(a, b) == [a[0]] + Merge(a[1..], b)
    ensures b != [] && (a == [] || !Before(a[0], b[0])) ==> Merge(a, b) == [b[0]] + Merge(a, b[1..])
  {
    hide Before;
    if a != [] {
      DropNext(a, 0);
    }
    if b != [] {
      DropNext(b, 0);
    }
  }

  lemma RemainingFirst(out: seq<Node>, a: seq<Node>, rest: seq<Node>, len2: nat, stride: nat)
    requires stride > 0 && a != [] && (rest == [] || len2 == 0 || Before(a[0], rest[0]))
    ensures Remaining(out + [a[0]], a[1..], rest, len2, stride) == Remaining(out, a, rest, len2, stride)
  {
    hide Pass, Before, Merge;
    var b := rest[..Min(len2, |rest|)];
    MergeStep(a, b);
    Assoc(out, [a[0]], Merge(a[1..], b));
  }

  lemma RemainingSecond(out: seq<Node>, a: seq<Node>, rest: seq<Node>, len2: nat, stride: nat)
    requires stride > 0 && rest != [] && len2 > 0 && (a == [] || !Before(a[0], rest[0]))
    ensures Remaining(out + [rest[0]], a, rest[1..], len2 - 1, stride) == Remaining(out, a, rest, len2, stride)
  {
    hide Pass, Before, Merge;
    var m := Min(len2, |rest|);
    var b := rest[..m];
    assert rest[1..][..m - 1] == b[1..] && rest[1..][m - 1..] == rest[m..];
    MergeStep(a, b);
    Assoc(out, [b[0]], Merge(a, b[1..]));
  }

  lemma RemainingDone(out: seq<Node>, rest: seq<Node>, len2: nat, stride: nat)
    requires stride > 0 && (rest == [] || len2 == 0)
    ensures Remaining(out, [], rest, len2, stride) == out + Pass(rest, stride)
  {
    hide Pass;
    assert rest[..0] == [] && rest[0..] == rest;
  }

  lemma PassNothing(stride: nat)
    requires stride > 0
    ensures Pass([], stride) == []
  {
  }

  lemma PassesStep(s: seq<Node>, stride: nat, count: int)
    requires stride > 0
    ensures var t := Pass(s, stride);
            Passes(s, stride, count) == if 2 * stride < count then Passes(t, 2 * stride, count) else t
  {
  }

  lemma {:induction false} PassInside(s: seq<Node>, stride: nat, nodes: set<Node>)
    requires stride > 0 && Inside(s, nodes)
    ensures Inside(Pass(s, stride), nodes)
    decreases |s|
  {
    hide Merge;
    if s != [] {
      var m := Min(stride, |s|);
      var n := Min(stride, |s| - m);
      PassInside(s[m + n..], stride, nodes);
      forall x | x in Merge(s[..m], s[m..m + n])
        ensures x in nodes
      {
        MergeMember(s[..m], s[m..m + n], x);
      }
    }
  }

  class DirInfo {
    var list: Node?
    var count: int
    ghost var entries: seq<Node>

    ghost predicate Valid()
      reads this, entries
    {
      Chain(list, entries) && NoDup(entries)
    }

    /** In the middle of a pass: `out` is linked and ends in cur, `a` is what is left of
        the first run from l1, `rest` is the remaining list from l2. */
    ghost predicate Split(out: seq<Node>, a: seq<Node>, rest: seq<Node>, cur: Node?, l1: Node?, l2: Node?)
      reads this, out, a, rest
    {
      AllApart(out, a, rest) && Links(out) && Links(a) && Chain(l2, rest) &&
      (if out == [] then cur == null else list == out[0] && cur == out[|out| - 1]) &&
      (a != [] ==> l1 == a[0])
    }

    /** Appends a node to the output list. */
    method Append(cur: Node?, node: Node)
      modifies this`list, cur
      ensures cur == null ==> list == node
      ensures cur != null ==> list == old(list) && cur.next == node
    {
      if cur != null {
        cur.next := node;
      } else {
        list := node;
      }
    }

    method TakeFirst(cur: Node?, l1: Node, l2: Node?, ghost out: seq<Node>, ghost a: seq<Node>, ghost rest: seq<Node>)
      returns (after: Node?)
      requires a != [] && Split(out, a, rest, cur, l1, l2)
      modifies this`list, cur
      ensures Split(out + [l1], a[1..], rest, l1, after, l2)
    {
      after := l1.next;
      Append(cur, l1);
      ghost var o, b := out + [l1], a[1..];
      assert Links(o) by {
        forall i | 0 <= i < |o| - 1
          ensures o[i].next == o[i + 1]
        {
          assert o[i] == out[i] && o[i] in out;
          if i < |out| - 1 {
            assert out[i] != cur;
          }
        }
      }
      assert Links(b) by {
        forall i | 0 <= i < |b| - 1
          ensures b[i].next == b[i + 1]
        {
          assert b[i] == a[i + 1] && b[i] in a;
        }
      }
      MoveApart(out, a, rest);
      assert Chain(l2, rest) by {
        assert forall i :: 0 <= i < |rest| ==> rest[i] in rest;
      }
    }

    method TakeSecond(cur: Node?, l1: Node?, l2: Node, ghost out: seq<Node>, ghost a: seq<Node>, ghost rest: seq<Node>)
      returns (after: Node?)
      requires rest != [] && Split(out, a, rest, cur, l1, l2)
      modifies this`list, cur
      ensures Split(out + [l2], a, rest[1..], l2, l1, after)
    {
      after := l2.next;
      Append(cur, l2);
      ghost var o, r := out + [l2], rest[1..];
      assert Links(o) by {
        forall i | 0 <= i < |o| - 1
          ensures o[i].next == o[i + 1]
        {
          assert o[i] == out[i] && o[i] in out;
          if i < |out| - 1 {
            assert out[i] != cur;
          }
        }
      }
      assert Links(a) by {
        assert forall i :: 0 <= i < |a| ==> a[i] in a;
      }
      MoveApart(out, rest, a);
      assert Chain(after, r) by {
        assert forall i :: 0 <= i < |rest| ==> rest[i] in rest;
        assert forall i :: 0 <= i < |r| ==> r[i] == rest[i + 1];
      }
    }

    /** Walks over the first run. */
    method PassOver(head: Node, stride: nat, ghost rest: seq<Node>) returns (l2: Node?, len1: nat)
      requires stride > 0 && rest != [] && Chain(head, rest)
      ensures 0 < len1 == Min(stride, |rest|) && Chain(l2, rest[len1..]) && Links(rest[..len1])
    {
      l2, len1 := head, 0;
      while l2 != null && len1 < stride
        invariant 0 <= len1 <= Min(stride, |rest|) && Chain(l2, rest[len1..])
      {
        ChainRest(l2, rest[len1..]);
        assert rest[len1..][1..] == rest[len1 + 1..];
        len1, l2 := len1 + 1, l2.next;
      }
    }

    /** In the middle of merging two runs: what is linked, what is left, and that the pass
        will come out as it should. */
    ghost predicate Merging(out: seq<Node>, a: seq<Node>, rest: seq<Node>, cur: Node?, l1: Node?, l2: Node?, len2: nat,
                            stride: nat, nodes: set<Node>, goal: seq<Node>)
      requires stride > 0
      reads this, out, a, rest
    {
      Split(out, a, rest, cur, l1, l2) && Inside(out, nodes) && Inside(a, nodes) && Inside(rest, nodes) &&
      Remaining(out, a, rest, len2, stride) == goal
    }

    lemma Second(out: seq<Node>, a: seq<Node>, rest: seq<Node>, cur: Node?, l1: Node?, l2: Node?)
      requires Split(out, a, rest, cur, l1, l2)
      ensures (l2 == null <==> rest == []) && (rest != [] ==> l2 == rest[0]) && (a != [] ==> l1 == a[0])
      ensures cur != null ==> cur in out
    {
    }

    /** Links the first node of the first run. */
    method MergeFirst(cur: Node?, l1: Node, l2: Node?, len2: nat, stride: nat, ghost out: seq<Node>, ghost a: seq<Node>,
                      ghost rest: seq<Node>, ghost nodes: set<Node>, ghost goal: seq<Node>)
      returns (after: Node?)
      requires stride > 0 && a != [] && Merging(out, a, rest, cur, l1, l2, len2, stride, nodes, goal)
      requires rest == [] || len2 == 0 || Before(a[0], rest[0])
      modifies this`list, nodes
      ensures l1 == a[0] && Merging(out + [l1], a[1..], rest, l1, after, l2, len2, stride, nodes, goal)
    {
      hide Remaining, Before, NoDup, Links;
      Second(out, a, rest, cur, l1, l2);
      RemainingFirst(out, a, rest, len2, stride);
      after := TakeFirst(cur, l1, l2, out, a, rest);
    }

    /** Links the first node of the second run. */
    method MergeSecond(cur: Node?, l1: Node?, l2: Node, len2: nat, stride: nat, ghost out: seq<Node>,
                       ghost a: seq<Node>, ghost rest: seq<Node>, ghost nodes: set<Node>, ghost goal: seq<Node>)
      returns (after: Node?)
      requires stride > 0 && len2 > 0 && Merging(out, a, rest, cur, l1, l2, len2, stride, nodes, goal)
      requires rest != [] && (a == [] || !Before(a[0], rest[0]))
      modifies this`list, nodes
      ensures l2 == rest[0] && Merging(out + [l2], a, rest[1..], l2, l1, after, len2 - 1, stride, nodes, goal)
    {
      hide Remaining, Before, NoDup, Links;
      Second(out, a, rest, cur, l1, l2);
      RemainingSecond(out, a, rest, len2, stride);
      after := TakeSecond(cur, l1, l2, out, a, rest);
    }

    /** One step of the outer loop of a pass: the two runs at the head of the remaining
        list are merged onto the output. */
    method MergeRuns(cur0: Node?, head: Node, stride: nat, ghost out0: seq<Node>, ghost rest0: seq<Node>,
                     ghost nodes: set<Node>)
      returns (cur: Node?, l2: Node?, ghost out: seq<Node>, ghost rest: seq<Node>)
      requires stride > 0 && rest0 != [] && Split(out0, [], rest0, cur0, null, head)
      requires Inside(out0, nodes) && Inside(rest0, nodes)
      modifies this`list, nodes
      ensures Split(out, [], rest, cur, null, l2) && Inside(out, nodes) && Inside(rest, nodes)
      ensures out != [] && |rest| < |rest0| && out + Pass(rest, stride) == out0 + Pass(rest0, stride)
    {
      hide Pass, Merge, Remaining, AllApart, Links, NoDup, Less, Before, Merging;
      var l1: Node?, len1: nat, len2 := head, 0, stride;
      l2, len1 := PassOver(head, stride, rest0);
      ghost var a, bound, goal := rest0[..len1], |rest0|, out0 + Pass(rest0, stride);
      cur, out, rest := cur0, out0, rest0[len1..];
      assert Merging(out, a, rest, cur, l1, l2, len2, stride, nodes, goal) by {
        StartMerging(cur0, head, stride, out0, rest0, nodes, l2, len1);
      }
      while len1 > 0 && l2 != null && len2 > 0
        invariant Merging(out, a, rest, cur, l1, l2, len2, stride, nodes, goal)
        invariant len1 == |a| && 0 <= len2 && |rest| < bound && out + a != []
        decreases len1 + len2
      {
        Known(out, a, rest, cur, l1, l2, len2, stride, nodes, goal);
        if !Less(l2.name, l1.name) {
          assert Before(a[0], rest[0]) by { BeforeIs(a[0], rest[0]); }
          var after := MergeFirst(cur, l1, l2, len2, stride, out, a, rest, nodes, goal);
          out, a, cur, l1, len1 := out + [l1], a[1..], l1, after, len1 - 1;
        } else {
          assert !Before(a[0], rest[0]) by { BeforeIs(a[0], rest[0]); }
          var after := MergeSecond(cur, l1, l2, len2, stride, out, a, rest, nodes, goal);
          out, rest, cur, l2, len2 := out + [l2], rest[1..], l2, after, len2 - 1;
        }
      }
      Known(out, a, rest, cur, l1, l2, len2, stride, nodes, goal);
      while len1 > 0
        invariant Merging(out, a, rest, cur, l1, l2, len2, stride, nodes, goal)
        invariant len1 == |a| && 0 <= len2 && |rest| < bound && out + a != []
        invariant len1 > 0 ==> rest == [] || len2 == 0
      {
        Known(out, a, rest, cur, l1, l2, len2, stride, nodes, goal);
        var after := MergeFirst(cur, l1, l2, len2, stride, out, a, rest, nodes, goal);
        out, a, cur, l1, len1 := out + [l1], a[1..], l1, after, len1 - 1;
      }
      while l2 != null && len2 > 0
        invariant Merging(out, a, rest, cur, l1, l2, len2, stride, nodes, goal)
        invariant a == [] && 0 <= len2 && |rest| < bound && out != []
        decreases len2
      {
        Known(out, a, rest, cur, l1, l2, len2, stride, nodes, goal);
        var after := MergeSecond(cur, l1, l2, len2, stride, out, a, rest, nodes, goal);
        out, rest, cur, l2, len2 := out + [l2], rest[1..], l2, after, len2 - 1;
      }
      EndMerging(out, rest, cur, l1, l2, len2, stride, nodes, goal);
    }

    lemma StartMerging(cur0: Node?, head: Node, stride: nat, out0: seq<Node>, rest0: seq<Node>, nodes: set<Node>,
                       l2: Node?, len1: nat)
      requires stride > 0 && rest0 != [] && Split(out0, [], rest0, cur0, null, head)
      requires Inside(out0, nodes) && Inside(rest0, nodes)
      requires 0 < len1 == Min(stride, |rest0|) && Chain(l2, rest0[len1..]) && Links(rest0[..len1])
      ensures Merging(out0, rest0[..len1], rest0[len1..], cur0, head, l2, stride, stride, nodes,
                      out0 + Pass(rest0, stride))
    {
      hide Remaining, AllApart, Pass;
      CutApart(out0, rest0, len1);
      RemainingStart(out0, rest0, stride);
    }

    lemma Known(out: seq<Node>, a: seq<Node>, rest: seq<Node>, cur: Node?, l1: Node?, l2: Node?, len2: nat,
                stride: nat, nodes: set<Node>, goal: seq<Node>)
      requires stride > 0 && Merging(out, a, rest, cur, l1, l2, len2, stride, nodes, goal)
      ensures (l2 == null <==> rest == []) && (rest != [] ==> l2 == rest[0]) && (a != [] ==> l1 == a[0])
    {
      hide Remaining, AllApart;
    }

    lemma EndMerging(out: seq<Node>, rest: seq<Node>, cur: Node?, l1: Node?, l2: Node?, len2: nat,
                     stride: nat, nodes: set<Node>, goal: seq<Node>)
      requires stride > 0 && Merging(out, [], rest, cur, l1, l2, len2, stride, nodes, goal) && (l2 == null || len2 == 0)
      ensures Split(out, [], rest, cur, null, l2) && Inside(out, nodes) && Inside(rest, nodes) &&
              out + Pass(rest, stride) == goal
    {
      hide Remaining, AllApart, Pass;
      RemainingDone(out, rest, len2, stride);
    }

    /** One pass over the list. */
    method MergePass(stride: nat, ghost nodes: set<Node>)
      requires stride > 0 && Valid() && entries != [] && Inside(entries, nodes)
      modifies this`list, this`entries, nodes
      ensures Valid() && entries == Pass(old(entries), stride)
    {
      hide Pass;
      ghost var out, rest := [], entries;
      var l2, cur: Node? := list, null;
      while l2 != null
        invariant Split(out, [], rest, cur, null, l2) && Inside(out, nodes) && Inside(rest, nodes)
        invariant out + Pass(rest, stride) == Pass(entries, stride) && entries == old(entries)
        invariant out == [] ==> rest != []
        decreases |rest|
      {
        cur, l2, out, rest := MergeRuns(cur, l2, stride, out, rest, nodes);
      }
      PassNothing(stride);
      assert cur in out && cur in nodes;
      cur.next := null;
      entries := out;
      assert Links(out) by {
        assert forall i :: 0 <= i < |out| - 1 ==> out[i] != cur;
      }
    }

    /** Sorts the list in place: afterwards it holds the same nodes, those of equal name in
        their old order, in name order whenever the count is not below the length. */
    method Sort()
      requires Valid()
      modifies this`list, this`entries, entries
      ensures Valid() && entries == SortResult(old(entries), count)
      ensures StableOf(old(entries), entries) && multiset(entries) == multiset(old(entries))
      ensures count >= |entries| ==> Ordered(entries)
    {
      hide Pass, Passes, StableOf, Ordered;
      SortIsStableSort(entries, count);
      assert |SortResult(entries, count)| == |entries| by {
        assert |multiset(entries)| == |entries|;
        assert |multiset(SortResult(entries, count))| == |SortResult(entries, count)|;
      }
      if list == null || count < 2 {
        return;
      }
      ghost var nodes := set x | x in entries;
      var stride, more := 1, true;
      while more
        invariant Valid() && stride > 0 && entries != [] && Inside(entries, nodes)
        invariant SortResult(old(entries), count) == if more then Passes(entries, stride, count) else entries
        decreases more, count - stride
      {
        PassesStep(entries, stride, count);
        PassInside(entries, stride, nodes);
        MergePass(stride, nodes);
        stride := 2 * stride;
        more := stride < count;
      }
    }
  }
}
