/** Executing recorded move and rename actions on the scanned directory tree. */
module Moves {
  import opened Bytes
  import opened LeavingOrder

  /** A directory with its path below the root, its entries in list order, the counters
      kept with it, and the entry it hangs from. */
  datatype Dir = Dir(subpath: string, list: seq<nat>, count: int, dirCount: int, entry: Option<nat>)

  /** An entry: its name, the directory it stands for if any, and the one that lists it. */
  datatype Ent = Ent(name: string, dir: Option<nat>, home: nat)

  datatype Tree = Tree(root: nat, dirs: map<nat, Dir>, ents: map<nat, Ent>)

  /** What to do with an entry; a destination directory, a new name, or both. */
  datatype Move = Move(entry: nat, dest: Option<nat>, name: Option<string>)

  predicate GoodName(name: string) { name != "" && '/' !in name }

  // ---------- the invariant ----------

  function DirsIn(t: Tree, list: seq<nat>): nat
  {
    if list == [] then 0
    else (if list[0] in t.ents && t.ents[list[0]].dir.Some? then 1 else 0) + DirsIn(t, list[1..])
  }

  ghost predicate NamesApart(t: Tree, list: seq<nat>)
  {
    forall e, f :: e in list && f in list && e != f && e in t.ents && f in t.ents ==> t.ents[e].name != t.ents[f].name
  }

  ghost predicate DirOk(t: Tree, d: nat)
    requires d in t.dirs
  {
    var r := t.dirs[d];
    NoDup(r.list) && (forall e :: e in r.list ==> e in t.ents && t.ents[e].home == d) && NamesApart(t, r.list) &&
    r.count == |r.list| && r.dirCount == DirsIn(t, r.list) &&
    (d == t.root <==> r.entry.None?) &&
    (r.entry.Some? ==> r.entry.value in t.ents && t.ents[r.entry.value].dir == Some(d))
  }

  ghost predicate EntOk(t: Tree, e: nat)
    requires e in t.ents
  {
    var r := t.ents[e];
    GoodName(r.name) && r.home in t.dirs && e in t.dirs[r.home].list &&
    (r.dir.Some? ==> r.dir.value in t.dirs && t.dirs[r.dir.value].entry == Some(e))
  }

  /** Every entry is in exactly one list, once; siblings have different names; the counters
      are exact; directories and their entries point at each other. */
  ghost predicate Shape(t: Tree)
  {
    t.root in t.dirs && (forall d :: d in t.dirs ==> DirOk(t, d)) && forall e :: e in t.ents ==> EntOk(t, e)
  }

  ghost function Parent(t: Tree, d: nat): (p: nat)
    requires Shape(t) && d in t.dirs && d != t.root
    ensures p in t.dirs
  {
    assert DirOk(t, d);
    assert EntOk(t, t.dirs[d].entry.value);
    t.ents[t.dirs[d].entry.value].home
  }

  ghost function NameOf(t: Tree, d: nat): (name: string)
    requires Shape(t) && d in t.dirs && d != t.root
    ensures GoodName(name)
  {
    assert DirOk(t, d);
    assert EntOk(t, t.dirs[d].entry.value);
    t.ents[t.dirs[d].entry.value].name
  }

  /** The recorded path is the parent's path plus the name. */
  ghost predicate Right(t: Tree, d: nat)
    requires Shape(t) && d in t.dirs
  {
    if d == t.root then t.dirs[d].subpath == ""
    else t.dirs[d].subpath == t.dirs[Parent(t, d)].subpath + "/" + NameOf(t, d)
  }

  ghost predicate Valid(t: Tree)
  {
    Shape(t) && forall d :: d in t.dirs ==> Right(t, d)
  }

  // ---------- ancestry ----------

  /** Levels that grow from parent to child: the directories form a tree. */
  ghost predicate Leveled(t: Tree, level: map<nat, nat>, top: nat)
    requires Shape(t)
  {
    (forall d :: d in t.dirs ==> d in level && level[d] <= top) &&
    forall d :: d in t.dirs && d != t.root ==> level[Parent(t, d)] < level[d]
  }

  /** d is a or lies below it. */
  ghost predicate Under(t: Tree, level: map<nat, nat>, top: nat, d: nat, a: nat)
    requires Shape(t) && Leveled(t, level, top) && d in t.dirs
    decreases level[d]
  {
    d == a || (d != t.root && Under(t, level, top, Parent(t, d), a))
  }

  /** Path lengths are such levels. */
  ghost function Lengths(t: Tree): map<nat, nat>
  {
    map d | d in t.dirs :: |t.dirs[d].subpath|
  }

  lemma {:induction false} Bounded(m: map<nat, nat>) returns (top: nat)
    ensures forall d :: d in m ==> m[d] <= top
    decreases |m|
  {
    if m.Keys == {} {
      top := 0;
    } else {
      var d :| d in m;
      var rest := m - {d};
      assert rest.Keys == m.Keys - {d};
      top := Bounded(rest);
      top := if m[d] <= top then top else m[d];
      forall x | x in m
        ensures m[x] <= top
      {
        assert x != d ==> x in rest && rest[x] == m[x];
      }
    }
  }

  lemma ValidLeveled(t: Tree) returns (top: nat)
    requires Valid(t)
    ensures Leveled(t, Lengths(t), top)
  {
    top := Bounded(Lengths(t));
    forall d | d in t.dirs && d != t.root
      ensures |t.dirs[Parent(t, d)].subpath| < |t.dirs[d].subpath|
    {
      assert Right(t, d);
    }
  }

  // ---------- subdirectory ----------

  /** subdirectory(): the text of one path continues the other at a component boundary. */
  predicate Subdirectory(source: string, dest: string)
  {
    |source| <= |dest| && (|source| == |dest| || dest[|source|] == '/') && dest[..|source|] == source
  }

  lemma LastSlash(p: string, m: string)
    requires '/' !in m
    ensures var s := p + "/" + m;
            s[|p|] == '/' && s[..|p|] == p && s[|p| + 1..] == m && forall i :: |p| < i < |s| ==> s[i] != '/'
  {
    var s := p + "/" + m;
    forall i | |p| < i < |s|
      ensures s[i] != '/'
    {
      assert s[i] == m[i - |p| - 1];
    }
  }

  lemma SlashSplits(p: string, m: string, q: string, n: string)
    requires p + "/" + m == q + "/" + n && '/' !in m && '/' !in n
    ensures p == q && m == n
  {
    LastSlash(p, m);
    LastSlash(q, n);
    assert |p| == |q|;
  }

  /** Different directories have different paths. */
  lemma {:induction false} PathsApart(t: Tree, d: nat, e: nat)
    requires Valid(t) && d in t.dirs && e in t.dirs && t.dirs[d].subpath == t.dirs[e].subpath
    ensures d == e
    decreases |t.dirs[d].subpath|
  {
    assert Right(t, d) && Right(t, e);
    if d != t.root && e != t.root {
      SlashSplits(t.dirs[Parent(t, d)].subpath, NameOf(t, d), t.dirs[Parent(t, e)].subpath, NameOf(t, e));
      PathsApart(t, Parent(t, d), Parent(t, e));
      SameNameSameEntry(t, d, e);
    }
  }

  lemma SameNameSameEntry(t: Tree, d: nat, e: nat)
    requires Shape(t) && d in t.dirs && e in t.dirs && d != t.root && e != t.root
    requires Parent(t, d) == Parent(t, e) && NameOf(t, d) == NameOf(t, e)
    ensures d == e
  {
    var x, y := t.dirs[d].entry.value, t.dirs[e].entry.value;
    assert EntOk(t, x) && EntOk(t, y) && DirOk(t, Parent(t, d));
    assert DirOk(t, d) && DirOk(t, e);
  }

  /** The text of the parent's path carries on to the child. */
  lemma StepUp(source: string, parent: string, name: string)
    requires '/' !in name
    ensures Subdirectory(source, parent + "/" + name) <==>
            source == parent + "/" + name || Subdirectory(source, parent)
  {
    var dest := parent + "/" + name;
    if Subdirectory(source, dest) && source != dest {
      LastSlash(parent, name);
      assert |source| <= |parent|;
      assert parent[..|source|] == dest[..|source|];
      if |source| < |parent| {
        assert parent[|source|] == dest[|source|];
      }
    }
    if Subdirectory(source, parent) {
      assert dest[..|source|] == parent[..|source|];
    }
  }

  /** d is a or lies below it, in a valid tree. */
  ghost predicate Below(t: Tree, d: nat, a: nat)
    requires Valid(t) && d in t.dirs
    decreases |t.dirs[d].subpath|
  {
    assert Right(t, d);
    d == a || (d != t.root && Below(t, Parent(t, d), a))
  }

  /** The string test is ancestry. */
  lemma {:induction false} SubdirectoryIsAncestry(t: Tree, source: nat, dest: nat)
    requires Valid(t) && source in t.dirs && dest in t.dirs
    ensures Subdirectory(t.dirs[source].subpath, t.dirs[dest].subpath) <==> Below(t, dest, source)
    decreases |t.dirs[dest].subpath|
  {
    assert Right(t, dest);
    var s, d := t.dirs[source].subpath, t.dirs[dest].subpath;
    if s == d {
      PathsApart(t, source, dest);
    }
    if dest == t.root {
      assert Subdirectory(s, d) ==> s == d;
    } else {
      var p := Parent(t, dest);
      StepUp(s, t.dirs[p].subpath, NameOf(t, dest));
      SubdirectoryIsAncestry(t, source, p);
    }
  }

  /** No directory lies below itself, and climbing from any directory ends at the root. */
  lemma {:induction false} IsTree(t: Tree, d: nat)
    requires Valid(t) && d in t.dirs
    ensures Below(t, d, t.root) && (d != t.root ==> !Below(t, Parent(t, d), d))
    decreases |t.dirs[d].subpath|
  {
    assert Right(t, d);
    if d != t.root {
      IsTree(t, Parent(t, d));
      if Below(t, Parent(t, d), d) {
        BelowIsLonger(t, Parent(t, d), d);
      }
    }
  }

  lemma {:induction false} BelowIsLonger(t: Tree, d: nat, a: nat)
    requires Valid(t) && d in t.dirs && Below(t, d, a)
    ensures a in t.dirs && |t.dirs[a].subpath| <= |t.dirs[d].subpath|
    decreases |t.dirs[d].subpath|
  {
    assert Right(t, d);
    if d != a {
      BelowIsLonger(t, Parent(t, d), a);
    }
  }

  // ---------- fixing up the paths below a moved directory ----------

  /** Only recorded paths differ. */
  ghost predicate SameShape(t: Tree, u: Tree)
  {
    t.root == u.root && t.ents == u.ents && t.dirs.Keys == u.dirs.Keys &&
    forall d :: d in t.dirs ==> u.dirs[d] == t.dirs[d].(subpath := u.dirs[d].subpath)
  }

  lemma {:induction false} DirsInSame(t: Tree, u: Tree, list: seq<nat>)
    requires t.ents == u.ents
    ensures DirsIn(t, list) == DirsIn(u, list)
  {
    if list != [] {
      DirsInSame(t, u, list[1..]);
    }
  }

  lemma ShapeKept(t: Tree, u: Tree)
    requires Shape(t) && SameShape(t, u)
    ensures Shape(u)
    ensures forall d :: d in t.dirs && d != t.root ==> Parent(u, d) == Parent(t, d) && NameOf(u, d) == NameOf(t, d)
  {
    forall d | d in u.dirs
      ensures DirOk(u, d)
    {
      assert DirOk(t, d);
      DirsInSame(t, u, t.dirs[d].list);
    }
    forall e | e in u.ents
      ensures EntOk(u, e)
    {
      assert EntOk(t, e);
    }
  }

  lemma {:induction false} UnderKept(t: Tree, u: Tree, level: map<nat, nat>, top: nat, d: nat, a: nat)
    requires Shape(t) && SameShape(t, u) && Shape(u) && Leveled(t, level, top) && Leveled(u, level, top) && d in t.dirs
    requires forall x :: x in t.dirs && x != t.root ==> Parent(u, x) == Parent(t, x)
    ensures Under(t, level, top, d, a) == Under(u, level, top, d, a)
    decreases level[d]
  {
    hide Shape, SameShape, Leveled, Parent;
    assert d in u.dirs && u.root == t.root by { Known(t, u, d); }
    if d != a && d != t.root {
      Climbs(t, level, top, d);
      UnderKept(t, u, level, top, Parent(t, d), a);
    }
  }

  lemma Known(t: Tree, u: Tree, d: nat)
    requires SameShape(t, u) && d in t.dirs
    ensures d in u.dirs && u.root == t.root
  {
  }

  lemma Climbs(t: Tree, level: map<nat, nat>, top: nat, d: nat)
    requires Shape(t) && Leveled(t, level, top) && d in t.dirs && d != t.root
    ensures Parent(t, d) in t.dirs && Parent(t, d) in level && d in level && level[Parent(t, d)] < level[d] <= top
  {
  }

  lemma {:induction false} UnderIsHigher(t: Tree, level: map<nat, nat>, top: nat, d: nat, a: nat)
    requires Shape(t) && Leveled(t, level, top) && d in t.dirs && Under(t, level, top, d, a)
    ensures a in t.dirs && level[a] <= level[d]
    decreases level[d]
  {
    hide Shape, Leveled, Parent;
    if d != a {
      Climbs(t, level, top, d);
      UnderIsHigher(t, level, top, Parent(t, d), a);
    } else {
      assert d in level by { InLevel(t, level, top, d); }
    }
  }

  lemma InLevel(t: Tree, level: map<nat, nat>, top: nat, d: nat)
    requires Shape(t) && Leveled(t, level, top) && d in t.dirs
    ensures d in level && level[d] <= top
  {
  }

  /** A directory is below only one child of another. */
  lemma {:induction false} OneChild(t: Tree, level: map<nat, nat>, top: nat, x: nat, c: nat, d: nat)
    requires Shape(t) && Leveled(t, level, top) && x in t.dirs && c in t.dirs && d in t.dirs && c != t.root &&
             d != t.root
    requires Parent(t, c) == Parent(t, d) && Under(t, level, top, x, c) && Under(t, level, top, x, d)
    ensures c == d
    decreases level[x]
  {
    hide Shape, Leveled, Parent;
    Climbs(t, level, top, c);
    Climbs(t, level, top, d);
    if x == c && x != d {
      UnderIsHigher(t, level, top, Parent(t, x), d);
    } else if x == d && x != c {
      UnderIsHigher(t, level, top, Parent(t, x), c);
    } else if x != c {
      Climbs(t, level, top, x);
      OneChild(t, level, top, Parent(t, x), c, d);
    }
  }

  /** The i-th entry of directory d is a directory above x. */
  ghost predicate Via(t: Tree, level: map<nat, nat>, top: nat, d: nat, i: nat, x: nat)
    requires Shape(t) && Leveled(t, level, top) && x in t.dirs && d in t.dirs
  {
    i < |t.dirs[d].list| && t.dirs[d].list[i] in t.ents &&
    var e := t.ents[t.dirs[d].list[i]];
    e.dir.Some? && Under(t, level, top, x, e.dir.value)
  }

  ghost predicate Done(t: Tree, level: map<nat, nat>, top: nat, d: nat, n: nat, x: nat)
    requires Shape(t) && Leveled(t, level, top) && x in t.dirs && d in t.dirs
  {
    exists i: nat :: i < n && Via(t, level, top, d, i, x)
  }

  /** Everything below d is d or below one of its entries. */
  lemma {:induction false} UnderVia(t: Tree, level: map<nat, nat>, top: nat, d: nat, x: nat)
    requires Shape(t) && Leveled(t, level, top) && x in t.dirs && d in t.dirs
    ensures Under(t, level, top, x, d) <==> x == d || Done(t, level, top, d, |t.dirs[d].list|, x)
    decreases level[x]
  {
    if x != d {
      if x != t.root {
        var p, e := Parent(t, x), t.dirs[x].entry.value;
        UnderVia(t, level, top, d, p);
        assert DirOk(t, x) && EntOk(t, e);
        if p == d {
          var i :| 0 <= i < |t.dirs[d].list| && t.dirs[d].list[i] == e;
          assert Via(t, level, top, d, i, x);
        } else if Done(t, level, top, d, |t.dirs[d].list|, p) {
          var i: nat :| i < |t.dirs[d].list| && Via(t, level, top, d, i, p);
          assert Via(t, level, top, d, i, x);
        }
      }
      if Done(t, level, top, d, |t.dirs[d].list|, x) {
        var i: nat :| i < |t.dirs[d].list| && Via(t, level, top, d, i, x);
        ViaUnder(t, level, top, d, i, x);
      }
    }
  }

  lemma {:induction false} ViaUnder(t: Tree, level: map<nat, nat>, top: nat, d: nat, i: nat, x: nat)
    requires Shape(t) && Leveled(t, level, top) && x in t.dirs && d in t.dirs && Via(t, level, top, d, i, x)
    ensures Under(t, level, top, x, d)
    decreases level[x]
  {
    var e := t.dirs[d].list[i];
    var c := t.ents[e].dir.value;
    assert DirOk(t, d) && EntOk(t, e);
    assert DirOk(t, c);
    if x == c {
      assert Parent(t, x) == d;
    } else {
      ViaUnder(t, level, top, d, i, Parent(t, x));
    }
  }

  /** All paths at and below d are right, all others untouched. */
  ghost predicate Fixed(t: Tree, u: Tree, level: map<nat, nat>, top: nat, d: nat)
    requires Shape(t) && Leveled(t, level, top)
  {
    SameShape(t, u) && Shape(u) &&
    forall x :: x in t.dirs ==> if Under(t, level, top, x, d) then Right(u, x) else u.dirs[x] == t.dirs[x]
  }

  /** The same for d and what lies below its first n entries. */
  ghost predicate Partly(t: Tree, u: Tree, level: map<nat, nat>, top: nat, d: nat, n: nat)
    requires Shape(t) && Leveled(t, level, top) && d in t.dirs
  {
    SameShape(t, u) && Shape(u) &&
    forall x :: x in t.dirs ==> if x == d || Done(t, level, top, d, n, x) then Right(u, x) else u.dirs[x] == t.dirs[x]
  }

  lemma LeveledKept(t: Tree, u: Tree, level: map<nat, nat>, top: nat)
    requires Shape(t) && SameShape(t, u) && Leveled(t, level, top)
    ensures Shape(u) && Leveled(u, level, top)
    ensures forall d :: d in t.dirs && d != t.root ==> Parent(u, d) == Parent(t, d)
  {
    ShapeKept(t, u);
  }

  lemma SameKeys(t: Tree, u: Tree)
    requires SameShape(t, u)
    ensures forall x :: x in t.dirs ==> x in u.dirs
  {
  }

  lemma PartlyDone(t: Tree, u: Tree, level: map<nat, nat>, top: nat, d: nat)
    requires Shape(t) && Leveled(t, level, top) && d in t.dirs && Partly(t, u, level, top, d, |t.dirs[d].list|)
    ensures Fixed(t, u, level, top, d)
  {
    hide Under, Done, Shape, Leveled, Right, SameShape;
    SameKeys(t, u);
    forall x | x in t.dirs
      ensures if Under(t, level, top, x, d) then Right(u, x) else u.dirs[x] == t.dirs[x]
    {
      UnderVia(t, level, top, d, x);
    }
  }

  lemma PartlyStart(t: Tree, u: Tree, level: map<nat, nat>, top: nat, d: nat)
    requires Shape(t) && Leveled(t, level, top) && d in t.dirs && d != t.root && SameShape(t, u)
    requires u.dirs == t.dirs[d := u.dirs[d]] && u.dirs[d].subpath == t.dirs[Parent(t, d)].subpath + "/" + NameOf(t, d)
    ensures Partly(t, u, level, top, d, 0)
  {
    ShapeKept(t, u);
    Climbs(t, level, top, d);
  }

  /** An entry that is no directory. */
  lemma PartlyFile(t: Tree, u: Tree, level: map<nat, nat>, top: nat, d: nat, n: nat)
    requires Shape(t) && Leveled(t, level, top) && d in t.dirs && Partly(t, u, level, top, d, n) && n < |t.dirs[d].list|
    requires t.dirs[d].list[n] in t.ents && t.ents[t.dirs[d].list[n]].dir.None?
    ensures Partly(t, u, level, top, d, n + 1)
  {
    hide Under, Shape, Leveled, Right, SameShape, Parent;
    forall x | x in t.dirs
      ensures Done(t, level, top, d, n + 1, x) == Done(t, level, top, d, n, x)
    {
      if Done(t, level, top, d, n + 1, x) {
        var i: nat :| i < n + 1 && Via(t, level, top, d, i, x);
        assert i != n;
      }
    }
  }

  lemma DoneNext(t: Tree, level: map<nat, nat>, top: nat, d: nat, n: nat, c: nat, x: nat)
    requires Shape(t) && Leveled(t, level, top) && d in t.dirs && x in t.dirs && n < |t.dirs[d].list|
    requires t.dirs[d].list[n] in t.ents && t.ents[t.dirs[d].list[n]].dir == Some(c)
    ensures Done(t, level, top, d, n + 1, x) <==> Done(t, level, top, d, n, x) || Under(t, level, top, x, c)
  {
    hide Under, Shape, Leveled, Parent;
    if Under(t, level, top, x, c) {
      assert Via(t, level, top, d, n, x);
    }
  }

  lemma ChildOf(t: Tree, d: nat, n: nat)
    requires Shape(t) && d in t.dirs && n < |t.dirs[d].list|
    ensures var e := t.dirs[d].list[n];
            e in t.ents && t.ents[e].home == d &&
            (t.ents[e].dir.Some? ==> var c := t.ents[e].dir.value;
                                     c in t.dirs && c != t.root && Parent(t, c) == d && t.dirs[c].entry == Some(e))
  {
    var e := t.dirs[d].list[n];
    assert DirOk(t, d);
    assert EntOk(t, e);
    if t.ents[e].dir.Some? {
      assert DirOk(t, t.ents[e].dir.value);
    }
  }

  /** What lies below an earlier entry does not lie below this one. */
  lemma EarlierApart(t: Tree, level: map<nat, nat>, top: nat, d: nat, n: nat, c: nat, x: nat)
    requires Shape(t) && Leveled(t, level, top) && d in t.dirs && x in t.dirs && n < |t.dirs[d].list|
    requires t.dirs[d].list[n] in t.ents && t.ents[t.dirs[d].list[n]].dir == Some(c) && Done(t, level, top, d, n, x)
    ensures !Under(t, level, top, x, c)
    ensures x != t.root && Parent(t, x) in t.dirs && (Parent(t, x) == d || Done(t, level, top, d, n, Parent(t, x)))
  {
    hide Under, Leveled, Parent;
    var i: nat :| i < n && Via(t, level, top, d, i, x);
    ChildOf(t, d, i);
    ChildOf(t, d, n);
    var b := t.ents[t.dirs[d].list[i]].dir.value;
    assert DirOk(t, d);
    assert t.dirs[d].list[i] != t.dirs[d].list[n];
    if Under(t, level, top, x, c) {
      OneChild(t, level, top, x, b, c);
    }
    UnderParent(t, level, top, x, b);
    if x != b {
      assert Via(t, level, top, d, i, Parent(t, x));
    }
  }

  lemma UnderParent(t: Tree, level: map<nat, nat>, top: nat, x: nat, c: nat)
    requires Shape(t) && Leveled(t, level, top) && x in t.dirs && Under(t, level, top, x, c) && c in t.dirs &&
             c != t.root
    ensures x != t.root && (x == c || Under(t, level, top, Parent(t, x), c))
  {
  }

  /** Neither d nor its parent lies below a child of d. */
  lemma NotBelowChild(t: Tree, level: map<nat, nat>, top: nat, d: nat, c: nat)
    requires Shape(t) && Leveled(t, level, top) && d in t.dirs && c in t.dirs && c != t.root && Parent(t, c) == d
    ensures !Under(t, level, top, d, c) && (d != t.root ==> !Under(t, level, top, Parent(t, d), c))
  {
    hide Under, Leveled, Parent, Shape;
    Climbs(t, level, top, c);
    if Under(t, level, top, d, c) {
      UnderIsHigher(t, level, top, d, c);
    }
    if d != t.root {
      Climbs(t, level, top, d);
      if Under(t, level, top, Parent(t, d), c) {
        UnderIsHigher(t, level, top, Parent(t, d), c);
      }
    }
  }

  lemma RightKept(t: Tree, u: Tree, v: Tree, x: nat)
    requires Shape(t) && Shape(u) && Shape(v) && SameShape(t, u) && SameShape(u, v) && x in t.dirs && Right(u, x)
    requires v.dirs[x] == u.dirs[x] && (x != u.root ==> v.dirs[Parent(u, x)] == u.dirs[Parent(u, x)])
    ensures Right(v, x)
  {
    ShapeKept(u, v);
  }

  /** A directory entry whose subtree has just been fixed. */
  lemma PartlyDir(t: Tree, u: Tree, v: Tree, level: map<nat, nat>, top: nat, d: nat, n: nat, c: nat)
    requires Shape(t) && Leveled(t, level, top) && d in t.dirs && Partly(t, u, level, top, d, n) && n < |t.dirs[d].list|
    requires t.dirs[d].list[n] in t.ents && t.ents[t.dirs[d].list[n]].dir == Some(c)
    requires Leveled(u, level, top) && Fixed(u, v, level, top, c)
    ensures Partly(t, v, level, top, d, n + 1)
  {
    hide Under, Leveled, Parent, Shape, Right, SameShape;
    ShapeTransitive(t, u, v);
    SameKeys(t, v);
    LeveledKept(t, u, level, top);
    ChildOf(t, d, n);
    NotBelowChild(t, level, top, d, c);
    forall x | x in t.dirs
      ensures if x == d || Done(t, level, top, d, n + 1, x) then Right(v, x) else v.dirs[x] == t.dirs[x]
    {
      Known(t, u, x);
      UnderKept(t, u, level, top, x, c);
      DoneNext(t, level, top, d, n, c, x);
      if x == d || Done(t, level, top, d, n, x) {
        if x != d {
          EarlierApart(t, level, top, d, n, c, x);
        }
        if x != t.root {
          var p := Parent(t, x);
          Known(t, u, p);
          UnderKept(t, u, level, top, p, c);
          if p != d && x != d {
            EarlierApart(t, level, top, d, n, c, p);
          }
        }
        RightKept(t, u, v, x);
      }
    }
  }

  lemma ShapeTransitive(t: Tree, u: Tree, v: Tree)
    requires SameShape(t, u) && SameShape(u, v)
    ensures SameShape(t, v)
  {
  }

  // ---------- relinking an entry ----------

  function IsDir(t: Tree, e: nat): int
    requires e in t.ents
  {
    if t.ents[e].dir.Some? then 1 else 0
  }

  function Unlinked(t: Tree, e: nat): Tree
    requires e in t.ents && t.ents[e].home in t.dirs
  {
    var h := t.ents[e].home;
    var r := t.dirs[h];
    t.(dirs := t.dirs[h := r.(list := Without(r.list, e), count := r.count - 1, dirCount := r.dirCount - IsDir(t, e))])
  }

  function Linked(t: Tree, e: nat, dest: nat): Tree
    requires e in t.ents && dest in t.dirs
  {
    var r := t.dirs[dest];
    t.(dirs := t.dirs[dest := r.(list := [e] + r.list, count := r.count + 1, dirCount := r.dirCount + IsDir(t, e))],
       ents := t.ents[e := t.ents[e].(home := dest)])
  }

  function Renamed(t: Tree, e: nat, name: string): Tree
    requires e in t.ents
  {
    t.(ents := t.ents[e := t.ents[e].(name := name)])
  }

  function Target(t: Tree, m: Move): nat
    requires m.entry in t.ents
  {
    if m.dest.Some? then m.dest.value else t.ents[m.entry].home
  }

  function NewName(t: Tree, m: Move): string
    requires m.entry in t.ents
  {
    if m.name.Some? then m.name.value else t.ents[m.entry].name
  }

  ghost predicate MoveOk(t: Tree, m: Move)
  {
    m.entry in t.ents && (m.dest.Some? ==> m.dest.value in t.dirs) && (m.name.Some? ==> GoodName(m.name.value))
  }

  /** The tree after the move, with the recorded paths not yet fixed. */
  function Relinked(t: Tree, m: Move): Tree
    requires m.entry in t.ents && t.ents[m.entry].home in t.dirs && (m.dest.Some? ==> m.dest.value in t.dirs)
  {
    var u := if m.dest.Some? then Linked(Unlinked(t, m.entry), m.entry, m.dest.value) else t;
    if m.name.Some? then Renamed(u, m.entry, m.name.value) else u
  }

  /** No entry of the target directory has the new name. */
  ghost predicate NameFree(t: Tree, m: Move)
    requires m.entry in t.ents && Target(t, m) in t.dirs
  {
    forall f :: f in t.dirs[Target(t, m)].list && f in t.ents ==> t.ents[f].name != NewName(t, m)
  }

  lemma {:induction false} DirsInWithout(t: Tree, list: seq<nat>, e: nat)
    requires e in list && e in t.ents
    ensures DirsIn(t, Without(list, e)) == DirsIn(t, list) - IsDir(t, e)
  {
    if list[0] != e {
      DirsInWithout(t, list[1..], e);
      assert Without(list, e)[1..] == Without(list[1..], e);
    }
  }

  lemma {:induction false} DirsInKept(t: Tree, u: Tree, list: seq<nat>)
    requires forall e :: e in list ==> e in t.ents && e in u.ents && t.ents[e].dir == u.ents[e].dir
    ensures DirsIn(t, list) == DirsIn(u, list)
  {
    if list != [] {
      DirsInKept(t, u, list[1..]);
    }
  }

  lemma WithoutFacts(list: seq<nat>, e: nat)
    requires NoDup(list) && e in list
    ensures NoDup(Without(list, e)) && |Without(list, e)| == |list| - 1
    ensures forall x :: x in Without(list, e) <==> x in list && x != e
  {
    var p, q := TakeOut(list, e);
    InsertNoDup(p, q, e);
    forall x
      ensures x in p + q <==> x in list && x != e
    {
      assert x in list <==> x in p + q || x == e;
    }
  }

  /** What a directory lists afterwards: the old entries less e, with e in front in the
      target. */
  ghost function NewList(t: Tree, m: Move, d: nat): seq<nat>
    requires m.entry in t.ents && d in t.dirs
  {
    if m.dest.None? then t.dirs[d].list else
      var rest := if d == t.ents[m.entry].home then Without(t.dirs[d].list, m.entry) else t.dirs[d].list;
      if d == m.dest.value then [m.entry] + rest else rest
  }

  /** By how much a directory's count changes. */
  ghost function Gain(t: Tree, m: Move, d: nat): int
    requires m.entry in t.ents
  {
    if m.dest.None? then 0 else (if d == m.dest.value then 1 else 0) - if d == t.ents[m.entry].home then 1 else 0
  }

  ghost predicate DirAfter(t: Tree, u: Tree, m: Move, d: nat)
    requires m.entry in t.ents && d in t.dirs
  {
    d in u.dirs && u.dirs[d].entry == t.dirs[d].entry && u.dirs[d].subpath == t.dirs[d].subpath &&
    u.dirs[d].list == NewList(t, m, d) && u.dirs[d].count == t.dirs[d].count + Gain(t, m, d) &&
    u.dirs[d].dirCount == t.dirs[d].dirCount + (if t.ents[m.entry].dir.Some? then Gain(t, m, d) else 0)
  }

  /** The relinked tree, field by field. */
  ghost predicate Described(t: Tree, u: Tree, m: Move)
    requires m.entry in t.ents
  {
    u.root == t.root && u.dirs.Keys == t.dirs.Keys && u.ents.Keys == t.ents.Keys &&
    u.ents[m.entry] == Ent(NewName(t, m), t.ents[m.entry].dir, Target(t, m)) &&
    (forall x :: x in t.ents && x != m.entry ==> u.ents[x] == t.ents[x]) &&
    forall d :: d in t.dirs ==> DirAfter(t, u, m, d)
  }

  lemma RelinkedIs(t: Tree, m: Move)
    requires MoveOk(t, m) && t.ents[m.entry].home in t.dirs
    ensures Described(t, Relinked(t, m), m)
  {
    hide Without;
  }

  /** What a list holds in a tree of the right shape. */
  lemma ListFacts(t: Tree, d: nat)
    requires Shape(t) && d in t.dirs
    ensures NoDup(t.dirs[d].list) && forall x :: x in t.dirs[d].list <==> x in t.ents && t.ents[x].home == d
    ensures t.dirs[d].count == |t.dirs[d].list| && t.dirs[d].dirCount == DirsIn(t, t.dirs[d].list)
  {
    hide NamesApart, DirsIn, NoDup;
    assert DirOk(t, d);
    forall x
      ensures x in t.dirs[d].list <==> x in t.ents && t.ents[x].home == d
    {
      assert x in t.ents ==> EntOk(t, x);
    }
  }

  lemma AfterHas(t: Tree, u: Tree, m: Move, d: nat)
    requires m.entry in t.ents && Described(t, u, m) && d in t.dirs
    ensures DirAfter(t, u, m, d)
  {
  }

  lemma ConsNoDup(e: nat, rest: seq<nat>)
    requires NoDup(rest) && e !in rest
    ensures NoDup([e] + rest)
  {
  }

  /** The lists after relinking: distinct members, each at home. */
  lemma ListAfter(t: Tree, u: Tree, m: Move, d: nat)
    requires Shape(t) && MoveOk(t, m) && Described(t, u, m) && d in t.dirs && t.ents[m.entry].home in t.dirs
    ensures d in u.dirs && NoDup(u.dirs[d].list) && |u.dirs[d].list| == |t.dirs[d].list| + Gain(t, m, d)
    ensures forall x :: x in u.dirs[d].list <==> x in u.ents && u.ents[x].home == d
  {
    hide Without, NoDup, Shape, DirsIn;
    var e, h := m.entry, t.ents[m.entry].home;
    ListFacts(t, d);
    ListFacts(t, h);
    AfterHas(t, u, m, d);
    assert e in t.dirs[h].list;
    if m.dest.Some? {
      WithoutFacts(t.dirs[h].list, e);
      if d == m.dest.value {
        ConsNoDup(e, if d == h then Without(t.dirs[d].list, e) else t.dirs[d].list);
      }
    }
  }

  lemma NamesAfter(t: Tree, u: Tree, m: Move, d: nat)
    requires Shape(t) && MoveOk(t, m) && Described(t, u, m) && d in t.dirs && t.ents[m.entry].home in t.dirs &&
             NameFree(t, m)
    requires forall x :: x in u.dirs[d].list <==> x in u.ents && u.ents[x].home == d
    ensures NamesApart(u, u.dirs[d].list)
  {
    hide DirsIn, NoDup, DirAfter, NewList;
    assert DirOk(t, d);
    forall x, y | x in u.dirs[d].list && y in u.dirs[d].list && x != y
      ensures u.ents[x].name != u.ents[y].name
    {
      assert EntOk(t, x) && EntOk(t, y);
    }
  }

  lemma CountAfter(t: Tree, u: Tree, m: Move, d: nat)
    requires Shape(t) && MoveOk(t, m) && Described(t, u, m) && d in t.dirs && t.ents[m.entry].home in t.dirs
    ensures d in u.dirs
    ensures DirsIn(u, u.dirs[d].list) ==
            DirsIn(t, t.dirs[d].list) + (if t.ents[m.entry].dir.Some? then Gain(t, m, d) else 0)
  {
    hide Without, NoDup, Shape, DirsIn;
    var e, h := m.entry, t.ents[m.entry].home;
    ListFacts(t, d);
    ListFacts(t, h);
    AfterHas(t, u, m, d);
    assert e in t.dirs[h].list;
    if m.dest.Some? {
      WithoutFacts(t.dirs[h].list, e);
      DirsInWithout(t, t.dirs[h].list, e);
      var rest := if d == h then Without(t.dirs[d].list, e) else t.dirs[d].list;
      DirsInKept(t, u, rest);
      if d == m.dest.value {
        DirsInCons(u, e, rest);
      }
    } else {
      DirsInKept(t, u, t.dirs[d].list);
    }
  }

  lemma DirsInCons(u: Tree, e: nat, rest: seq<nat>)
    requires e in u.ents
    ensures DirsIn(u, [e] + rest) == IsDir(u, e) + DirsIn(u, rest)
  {
    assert ([e] + rest)[1..] == rest;
  }

  /** Relinking keeps every entry in one list, names distinct and the counters exact. */
  lemma RelinkedShape(t: Tree, u: Tree, m: Move)
    requires Shape(t) && MoveOk(t, m) && t.ents[m.entry].home in t.dirs && NameFree(t, m) && Described(t, u, m)
    ensures Shape(u)
  {
    hide DirOk, EntOk;
    DescribedKeys(t, u, m);
    forall d | d in u.dirs
      ensures DirOk(u, d)
    {
      RelinkedDir(t, u, m, d);
    }
    forall x | x in u.ents
      ensures EntOk(u, x)
    {
      RelinkedEnt(t, u, m, x);
    }
  }

  lemma RelinkedDir(t: Tree, u: Tree, m: Move, d: nat)
    requires Shape(t) && MoveOk(t, m) && t.ents[m.entry].home in t.dirs && NameFree(t, m) && Described(t, u, m) &&
             d in t.dirs
    ensures d in u.dirs && DirOk(u, d)
  {
    hide DirsIn, NoDup, NamesApart, NewList;
    ListAfter(t, u, m, d);
    NamesAfter(t, u, m, d);
    CountAfter(t, u, m, d);
    assert DirOk(t, d) && DirAfter(t, u, m, d);
  }

  lemma RelinkedEnt(t: Tree, u: Tree, m: Move, x: nat)
    requires Shape(t) && MoveOk(t, m) && t.ents[m.entry].home in t.dirs && Described(t, u, m) && x in u.ents
    ensures EntOk(u, x)
  {
    hide DirsIn, NoDup, NamesApart, NewList, DirOk;
    assert EntOk(t, x) && EntOk(t, m.entry);
    var h := if x == m.entry then Target(t, m) else t.ents[x].home;
    ListAfter(t, u, m, h);
    if t.ents[x].dir.Some? {
      AfterHas(t, u, m, t.ents[x].dir.value);
    }
  }

  // ---------- the relinked tree is still a tree ----------

  lemma ParentsAfter(t: Tree, u: Tree, m: Move, x: nat)
    requires Shape(t) && Shape(u) && MoveOk(t, m) && Described(t, u, m) && x in t.dirs && x != t.root
    ensures t.ents[m.entry].dir != Some(x) ==> Parent(u, x) == Parent(t, x) && NameOf(u, x) == NameOf(t, x)
    ensures t.ents[m.entry].dir == Some(x) ==> Parent(u, x) == Target(t, m) && NameOf(u, x) == NewName(t, m)
  {
    assert DirOk(t, x) && DirOk(u, x) && DirAfter(t, u, m, x);
    assert EntOk(t, m.entry);
  }

  /** A level for every directory: those that move along come after all others. */
  ghost function NewLevels(t: Tree, top: nat, c: nat): map<nat, nat>
    requires Valid(t)
  {
    map x | x in t.dirs :: if Below(t, x, c) then top + 1 + |t.dirs[x].subpath| else |t.dirs[x].subpath|
  }

  lemma BelowStep(t: Tree, x: nat, c: nat)
    requires Valid(t) && x in t.dirs && x != t.root
    ensures |t.dirs[Parent(t, x)].subpath| < |t.dirs[x].subpath|
    ensures x != c ==> Below(t, x, c) == Below(t, Parent(t, x), c)
  {
    assert Right(t, x);
  }

  /** A directory that is not moved below itself leaves a tree. */
  lemma StillTree(t: Tree, u: Tree, m: Move, top: nat, c: nat)
    requires Valid(t) && Leveled(t, Lengths(t), top) && Shape(u) && MoveOk(t, m) && Described(t, u, m)
    requires t.ents[m.entry].dir == Some(c) && c in t.dirs && c != t.root && Target(t, m) in t.dirs &&
             !Below(t, Target(t, m), c)
    ensures Leveled(u, NewLevels(t, top, c), 2 * top + 1)
  {
    hide Shape, Right, Described, Below, Parent, Leveled;
    var level := NewLevels(t, top, c);
    forall x | x in u.dirs
      ensures x in level && level[x] <= 2 * top + 1
      ensures x != u.root ==> Parent(u, x) in level && level[Parent(u, x)] < level[x]
    {
      assert x in t.dirs && u.root == t.root by { DescribedKeys(t, u, m); }
      InLevel(t, Lengths(t), top, x);
      if x != t.root {
        ParentsAfter(t, u, m, x);
        BelowStep(t, x, c);
        if x == c {
          InLevel(t, Lengths(t), top, Target(t, m));
          assert Below(t, c, c) by { BelowSelf(t, c); }
        }
      }
    }
    LeveledIs(u, level, 2 * top + 1);
  }

  lemma BelowSelf(t: Tree, c: nat)
    requires Valid(t) && c in t.dirs
    ensures Below(t, c, c)
  {
  }

  lemma DescribedKeys(t: Tree, u: Tree, m: Move)
    requires m.entry in t.ents && Described(t, u, m)
    ensures t.dirs.Keys == u.dirs.Keys && u.root == t.root && forall d :: d in t.dirs <==> d in u.dirs
  {
  }

  lemma LeveledIs(u: Tree, level: map<nat, nat>, top: nat)
    requires Shape(u) && forall x :: x in u.dirs ==> x in level && level[x] <= top
    requires forall x :: x in u.dirs && x != u.root ==> Parent(u, x) in level && level[Parent(u, x)] < level[x]
    ensures Leveled(u, level, top)
  {
  }

  lemma {:induction false} MovesAlong(t: Tree, u: Tree, m: Move, top: nat, c: nat, x: nat)
    requires Valid(t) && Shape(u) && MoveOk(t, m) && Described(t, u, m) && t.ents[m.entry].dir == Some(c) &&
             x in t.dirs && x in u.dirs
    requires Leveled(u, NewLevels(t, top, c), 2 * top + 1)
    ensures Under(u, NewLevels(t, top, c), 2 * top + 1, x, c) == Below(t, x, c)
    decreases |t.dirs[x].subpath|
  {
    hide Shape, Right, Parent, Leveled, Described;
    DescribedKeys(t, u, m);
    if x != c && x != t.root {
      ParentsAfterValid(t, u, m, x);
      BelowStep(t, x, c);
      MovesAlong(t, u, m, top, c, Parent(t, x));
      UnderStep(u, NewLevels(t, top, c), 2 * top + 1, x, c);
    } else {
      BelowTop(t, x, c);
    }
  }

  lemma ParentsAfterValid(t: Tree, u: Tree, m: Move, x: nat)
    requires Valid(t) && Shape(u) && MoveOk(t, m) && Described(t, u, m) && x in t.dirs && x != t.root
    requires t.ents[m.entry].dir != Some(x)
    ensures Parent(u, x) == Parent(t, x)
  {
    ParentsAfter(t, u, m, x);
  }

  lemma UnderStep(u: Tree, level: map<nat, nat>, top: nat, x: nat, c: nat)
    requires Shape(u) && Leveled(u, level, top) && x in u.dirs && x != u.root && x != c
    ensures Under(u, level, top, x, c) == Under(u, level, top, Parent(u, x), c)
  {
  }

  lemma BelowTop(t: Tree, x: nat, c: nat)
    requires Valid(t) && x in t.dirs && (x == c || x == t.root)
    ensures Below(t, x, c) == (x == c)
  {
  }

  /** Once the paths below the moved directory are fixed the tree is valid again. */
  lemma FixedIsValid(t: Tree, u: Tree, v: Tree, m: Move, top: nat, c: nat)
    requires Valid(t) && Shape(u) && MoveOk(t, m) && Described(t, u, m) && t.ents[m.entry].dir == Some(c)
    requires Leveled(u, NewLevels(t, top, c), 2 * top + 1) && Fixed(u, v, NewLevels(t, top, c), 2 * top + 1, c)
    ensures Valid(v)
  {
    hide Leveled, Under, Below, Shape, NewLevels;
    ShapeKept(u, v);
    DescribedKeys(t, u, m);
    forall x | x in v.dirs
      ensures Right(v, x)
    {
      MovesAlong(t, u, m, top, c, x);
      if !Below(t, x, c) {
        assert Right(t, x) && DirAfter(t, u, m, x);
        if x != t.root {
          BelowOther(t, x, c);
          var p := Parent(t, x);
          ParentsAfter(t, u, m, x);
          MovesAlong(t, u, m, top, c, p);
          assert DirAfter(t, u, m, p);
        }
      }
    }
  }

  lemma BelowOther(t: Tree, x: nat, c: nat)
    requires Valid(t) && x in t.dirs && x != t.root && !Below(t, x, c)
    ensures x != c && !Below(t, Parent(t, x), c)
  {
  }

  /** Moving an entry that is no directory changes no path. */
  lemma FileMoveIsValid(t: Tree, u: Tree, m: Move)
    requires Valid(t) && Shape(u) && MoveOk(t, m) && Described(t, u, m) && t.ents[m.entry].dir.None?
    ensures Valid(u)
  {
    forall x | x in u.dirs
      ensures Right(u, x)
    {
      assert Right(t, x) && DirAfter(t, u, m, x);
      if x != t.root {
        ParentsAfter(t, u, m, x);
        assert DirAfter(t, u, m, Parent(t, x));
      }
    }
  }

  class Mover {
    const root: nat
    var dirs: map<nat, Dir>
    var ents: map<nat, Ent>

    constructor (t: Tree)
      ensures View() == t
    {
      root, dirs, ents := t.root, t.dirs, t.ents;
    }

    ghost function View(): Tree
      reads this
    {
      Tree(root, dirs, ents)
    }

    /** move_dir: recomputes the path of the entry's directory and of all below it. */
    method MoveDir(e: nat, ghost level: map<nat, nat>, ghost top: nat)
      requires Shape(View()) && Leveled(View(), level, top) && e in ents && ents[e].dir.Some? &&
               ents[e].dir.value in dirs
      requires ents[e].dir.value != root && Parent(View(), ents[e].dir.value) == ents[e].home
      requires NameOf(View(), ents[e].dir.value) == ents[e].name
      modifies this`dirs
      ensures Fixed(old(View()), View(), level, top, ents[e].dir.value)
      decreases top - level[ents[e].dir.value]
    {
      hide Shape, Leveled, Under, Done, Right, Parent;
      ghost var t := View();
      var d := ents[e].dir.value;
      assert ents[e].home in dirs;
      dirs := dirs[d := dirs[d].(subpath := dirs[ents[e].home].subpath + "/" + ents[e].name)];
      PartlyStart(t, View(), level, top, d);
      var list := dirs[d].list;
      for i := 0 to |list|
        invariant d in dirs && list == t.dirs[d].list && Partly(t, View(), level, top, d, i)
      {
        ghost var u := View();
        LeveledKept(t, u, level, top);
        ChildOf(t, d, i);
        if ents[list[i]].dir.Some? {
          var c := ents[list[i]].dir.value;
          ChildNames(t, u, d, i);
          Climbs(t, level, top, c);
          MoveDir(list[i], level, top);
          PartlyDir(t, u, View(), level, top, d, i, c);
        } else {
          PartlyFile(t, u, level, top, d, i);
        }
      }
      PartlyDone(t, View(), level, top, d);
    }

    /** lookup_comp */
    method LookupComp(name: string, d: nat) returns (found: Option<nat>)
      requires Shape(View()) && d in dirs
      ensures found.Some? ==> found.value in dirs[d].list && found.value in ents && ents[found.value].name == name
      ensures found.None? ==> forall e :: e in dirs[d].list && e in ents ==> ents[e].name != name
    {
      var list := dirs[d].list;
      for i := 0 to |list|
        invariant forall k :: 0 <= k < i ==> list[k] in ents && ents[list[k]].name != name
      {
        ChildOf(View(), d, i);
        if ents[list[i]].name == name {
          return Some(list[i]);
        }
      }
      return None;
    }

    /** Unlinks one entry from a list. */
    static method Remove(list: seq<nat>, e: nat) returns (rest: seq<nat>)
      requires e in list
      ensures rest == Without(list, e)
    {
      var i := 0;
      assert list[0..] == list;
      while list[i] != e
        invariant 0 <= i < |list| && e in list[i..] && Without(list, e) == list[..i] + Without(list[i..], e)
        decreases |list| - i
      {
        WithoutStep(list, e, i);
        i := i + 1;
      }
      assert list[i..][1..] == list[i + 1..];
      rest := list[..i] + list[i + 1..];
    }

    /** Takes the entry out of its directory and puts it in front of another. */
    method Relink(e: nat, dest: nat)
      requires e in ents && ents[e].home in dirs && dest in dirs && e in dirs[ents[e].home].list
      modifies this
      ensures View() == Linked(Unlinked(old(View()), e), e, dest)
    {
      var h, isDir := ents[e].home, if ents[e].dir.Some? then 1 else 0;
      var rest := Remove(dirs[h].list, e);
      dirs := dirs[h := dirs[h].(list := rest, count := dirs[h].count - 1, dirCount := dirs[h].dirCount - isDir)];
      var r := dirs[dest];
      dirs := dirs[dest := r.(list := [e] + r.list, count := r.count + 1, dirCount := r.dirCount + isDir)];
      ents := ents[e := ents[e].(home := dest)];
    }

    /** The paths below a relinked directory. */
    method FixPaths(e: nat, ghost t: Tree, ghost m: Move)
      requires Valid(t) && MoveOk(t, m) && Target(t, m) in t.dirs && m.entry == e && Described(t, View(), m) &&
               Shape(View())
      requires t.ents[e].dir.Some? ==> !Below(t, Target(t, m), t.ents[e].dir.value)
      modifies this`dirs
      ensures Valid(View()) && SameShape(old(View()), View())
    {
      hide Right, Parent, Below, Shape, NewLevels, Leveled;
      ghost var u := View();
      EntryDir(t, e);
      DescribedKeys(t, u, m);
      if ents[e].dir.Some? {
        ghost var c := t.ents[e].dir.value;
        ghost var top := ValidLeveled(t);
        StillTree(t, u, m, top, c);
        ParentsAfter(t, u, m, c);
        MoveDir(e, NewLevels(t, top, c), 2 * top + 1);
        FixedIsValid(t, u, View(), m, top, c);
      } else {
        FileMoveIsValid(t, u, m);
      }
    }

    /** move_file */
    method MoveFile(m: Move)
      requires Valid(View()) && MoveOk(View(), m) && Target(View(), m) in dirs && ents[m.entry].home in dirs &&
               NameFree(View(), m)
      modifies this
      ensures Valid(View())
      ensures var t := old(View());
              if m.dest.Some? && t.ents[m.entry].dir.Some? && Below(t, m.dest.value, t.ents[m.entry].dir.value)
              then View() == t else SameShape(Relinked(t, m), View())
    {
      hide Right, Parent, Below, Shape, Linked, Unlinked, Described, SameShape;
      ghost var t := View();
      var e := m.entry;
      EntryDir(t, e);
      assert e in dirs[ents[e].home].list by { Listed(t, e); }
      if m.dest.Some? {
        var dest := m.dest.value;
        if ents[e].dir.Some? {
          SubdirectoryIsAncestry(t, ents[e].dir.value, dest);
          if Subdirectory(dirs[ents[e].dir.value].subpath, dirs[dest].subpath) {
            return;
          }
        }
        Relink(e, dest);
      }
      RelinkedIs(t, m);
      assert e in ents by { StillThere(t, e, m.dest); }
      if m.name.Some? {
        ents := ents[e := ents[e].(name := m.name.value)];
      }
      assert View() == Relinked(t, m);
      RelinkedShape(t, View(), m);
      if t.ents[e].dir.Some? {
        NotIntoItself(t, m, t.ents[e].dir.value);
      }
      FixPaths(e, t, m);
    }

    /** do_move_actions: any list of recorded moves keeps a tree. The moves are carried out one
        after the other, each on the tree the earlier ones have left. Entries no move names keep
        their name and their directory, and none is lost. */
    method DoMoveActions(moves: seq<Move>) returns (ghost trees: seq<Tree>)
      requires Valid(View()) && forall i :: 0 <= i < |moves| ==> MoveOk(View(), moves[i])
      modifies this
      ensures Valid(View()) && dirs.Keys == old(dirs.Keys) && ents.Keys == old(ents.Keys)
      ensures Follows(trees, moves) && trees[0] == old(View()) && trees[|moves|] == View()
      ensures forall e ::
                e in ents && (forall i :: 0 <= i < |moves| ==> moves[i].entry != e) ==> ents[e] == old(ents[e])
    {
      hide Valid, SameShape, Relinked, NameFree, Shape, Below;
      trees := [View()];
      for i := 0 to |moves|
        invariant Valid(View()) && dirs.Keys == old(dirs.Keys) && ents.Keys == old(ents.Keys)
        invariant forall e :: e in ents && (forall k :: 0 <= k < i ==> moves[k].entry != e) ==> ents[e] == old(ents[e])
        invariant Follows(trees, moves[..i]) && trees[0] == old(View()) && trees[i] == View()
      {
        var m := moves[i];
        ghost var t := View();
        assert MoveOk(old(View()), m);
        DoMove(m);
        MovedEntries(t, View(), m);
        FollowsNext(trees, moves, i, View());
        trees := trees + [View()];
      }
      TakeAll(moves);
    }

    /** One of them: the new name is looked for in the target directory first. */
    method DoMove(m: Move)
      requires Valid(View()) && MoveOk(View(), m)
      modifies this
      ensures StepOf(old(View()), m, View())
    {
      hide Valid, SameShape, Relinked, Shape, Below;
      ghost var t := View();
      EntryDir(t, m.entry);
      var dest := if m.dest.Some? then m.dest.value else ents[m.entry].home;
      var name := if m.name.Some? then m.name.value else ents[m.entry].name;
      ValidShape(t);
      var found := LookupComp(name, dest);
      if found.None? {
        assert NameFree(t, m) by { FreeName(t, m, name, dest); }
        MoveFile(m);
      } else {
        assert !NameFree(t, m);
      }
    }
  }

  /** A move is carried out when its name is free and a directory does not go below itself. */
  ghost predicate Carried(t: Tree, m: Move)
    requires Valid(t) && MoveOk(t, m)
  {
    && Target(t, m) in t.dirs && NameFree(t, m)
    && !(m.dest.Some? && t.ents[m.entry].dir.Some? && Below(t, m.dest.value, t.ents[m.entry].dir.value))
  }

  /** What a recorded move makes of a tree: the entry relinked and the paths right again, or nothing. */
  ghost predicate StepOf(t: Tree, m: Move, u: Tree)
  {
    && Valid(t) && Valid(u) && MoveOk(t, m) && t.ents[m.entry].home in t.dirs
    && if Carried(t, m) then SameShape(Relinked(t, m), u) else u == t
  }

  ghost predicate Follows(trees: seq<Tree>, moves: seq<Move>)
  {
    |trees| == |moves| + 1 && forall i :: 0 <= i < |moves| ==> StepOf(trees[i], moves[i], trees[i + 1])
  }

  lemma FollowsNext(trees: seq<Tree>, moves: seq<Move>, i: nat, u: Tree)
    requires i < |moves| && Follows(trees, moves[..i]) && StepOf(trees[i], moves[i], u)
    ensures Follows(trees + [u], moves[..i + 1])
  {
    hide StepOf;
  }

  /** The shape of a tree determines its paths. */
  lemma {:induction false} PathsFollow(t: Tree, u: Tree, d: nat)
    requires Valid(t) && Valid(u) && SameShape(t, u) && d in t.dirs
    ensures u.dirs[d].subpath == t.dirs[d].subpath
    decreases |t.dirs[d].subpath|
  {
    assert Right(t, d) && Right(u, d);
    if d != t.root {
      assert Parent(u, d) == Parent(t, d) && NameOf(u, d) == NameOf(t, d);
      PathsFollow(t, u, Parent(t, d));
    }
  }

  lemma ShapeVia(r: Tree, u: Tree, v: Tree)
    requires SameShape(r, u) && SameShape(r, v)
    ensures SameShape(u, v)
  {
  }

  lemma SameTree(u: Tree, v: Tree)
    requires Valid(u) && Valid(v) && SameShape(u, v)
    ensures u == v
  {
    hide Valid;
    forall d | d in u.dirs
      ensures u.dirs[d] == v.dirs[d]
    {
      PathsFollow(u, v, d);
    }
    assert u.dirs == v.dirs;
  }

  lemma StepUnique(t: Tree, m: Move, u: Tree, v: Tree)
    requires StepOf(t, m, u) && StepOf(t, m, v)
    ensures u == v
  {
    hide Carried, Valid, Relinked, SameShape;
    if Carried(t, m) {
      ShapeVia(Relinked(t, m), u, v);
      SameTree(u, v);
    }
  }

  /** So the moves and the tree they start from determine the tree they end with. */
  lemma {:induction false} MovesDetermine(a: seq<Tree>, b: seq<Tree>, moves: seq<Move>, n: nat)
    requires Follows(a, moves) && Follows(b, moves) && a[0] == b[0] && n <= |moves|
    ensures a[n] == b[n]
    decreases n
  {
    hide StepOf;
    if n > 0 {
      MovesDetermine(a, b, moves, n - 1);
      assert StepOf(a[n - 1], moves[n - 1], a[n - 1 + 1]) && StepOf(b[n - 1], moves[n - 1], b[n - 1 + 1]);
      StepUnique(a[n - 1], moves[n - 1], a[n], b[n]);
    }
  }

  lemma WithoutStep(list: seq<nat>, e: nat, i: nat)
    requires i < |list| && e in list[i..] && list[i] != e && Without(list, e) == list[..i] + Without(list[i..], e)
    ensures i + 1 < |list| && e in list[i + 1..] && Without(list, e) == list[..i + 1] + Without(list[i + 1..], e)
  {
    assert list[i..] == [list[i]] + list[i + 1..];
    assert list[i..][1..] == list[i + 1..];
    assert list[..i + 1] == list[..i] + [list[i]];
  }

  lemma Listed(t: Tree, e: nat)
    requires Valid(t) && e in t.ents
    ensures t.ents[e].home in t.dirs && e in t.dirs[t.ents[e].home].list
  {
    assert EntOk(t, e);
  }

  lemma StillThere(t: Tree, e: nat, dest: Option<nat>)
    requires e in t.ents && t.ents[e].home in t.dirs && (dest.Some? ==> dest.value in t.dirs)
    ensures dest.Some? ==> e in Linked(Unlinked(t, e), e, dest.value).ents
  {
  }

  lemma EntryDir(t: Tree, e: nat)
    requires Valid(t) && e in t.ents
    ensures t.ents[e].home in t.dirs
    ensures t.ents[e].dir.Some? ==> t.ents[e].dir.value in t.dirs && t.ents[e].dir.value != t.root
    ensures t.ents[e].dir.Some? ==> Parent(t, t.ents[e].dir.value) == t.ents[e].home
  {
    assert EntOk(t, e);
    if t.ents[e].dir.Some? {
      assert DirOk(t, t.ents[e].dir.value);
    }
  }

  lemma ValidShape(t: Tree)
    requires Valid(t)
    ensures Shape(t)
  {
  }

  lemma FreeName(t: Tree, m: Move, name: string, dest: nat)
    requires MoveOk(t, m) && dest == Target(t, m) && name == NewName(t, m) && dest in t.dirs
    requires forall e :: e in t.dirs[dest].list && e in t.ents ==> t.ents[e].name != name
    ensures NameFree(t, m)
  {
  }

  /** A renamed directory stays where it is, a moved one goes outside itself. */
  lemma NotIntoItself(t: Tree, m: Move, c: nat)
    requires Valid(t) && MoveOk(t, m) && t.ents[m.entry].dir == Some(c) && Target(t, m) in t.dirs
    requires m.dest.Some? ==> !Below(t, m.dest.value, c)
    ensures !Below(t, Target(t, m), c)
  {
    hide Below;
    EntryDir(t, m.entry);
    IsTree(t, c);
  }

  lemma MovedEntries(t: Tree, v: Tree, m: Move)
    requires MoveOk(t, m) && t.ents[m.entry].home in t.dirs && (v == t || SameShape(Relinked(t, m), v))
    ensures v.dirs.Keys == t.dirs.Keys && v.ents.Keys == t.ents.Keys
    ensures forall e :: e in t.ents && e != m.entry ==> v.ents[e] == t.ents[e]
  {
    RelinkedIs(t, m);
  }

  lemma ChildNames(t: Tree, u: Tree, d: nat, n: nat)
    requires Shape(t) && Shape(u) && SameShape(t, u) && d in t.dirs && n < |t.dirs[d].list| &&
             t.dirs[d].list[n] in t.ents
    requires t.ents[t.dirs[d].list[n]].dir.Some?
    ensures var e := t.ents[t.dirs[d].list[n]];
            e.dir.value in u.dirs && e.dir.value != u.root && Parent(u, e.dir.value) == e.home == d &&
              NameOf(u, e.dir.value) == e.name
  {
    ChildOf(t, d, n);
    ShapeKept(t, u);
  }
}
