/** Extract targets and anchored excludes: targets are split into components and merged
    into a trie in which a shorter target swallows longer ones; a scan carries the set of
    sub-tries that still apply from level to level. `fits` is the component match, shell
    wildcard or regular expression. */
module PathTrie {
  import opened Bytes

  type Fits = (string, string) -> bool

  // ---------- splitting a target ----------

  function SkipSlashes(s: string, p: nat): (q: nat)
    requires p <= |s|
    ensures p <= q <= |s| && (q < |s| ==> s[q] != '/')
    decreases |s| - p
  {
    if p < |s| && s[p] == '/' then SkipSlashes(s, p + 1) else p
  }

  function SkipName(s: string, p: nat): (q: nat)
    requires p <= |s|
    ensures p <= q <= |s| && (q < |s| ==> s[q] == '/')
    decreases |s| - p
  {
    if p < |s| && s[p] != '/' then SkipName(s, p + 1) else p
  }

  /** get_component: the first component from p on and where the next one begins. */
  function Component(s: string, p: nat): (r: (string, nat))
    requires p <= |s|
    ensures p <= r.1 <= |s| && (p < |s| ==> p < r.1)
  {
    var a := SkipSlashes(s, p);
    var b := SkipName(s, a);
    (s[a..b], SkipSlashes(s, b))
  }

  method GetComponent(s: string, p: nat) returns (name: string, next: nat)
    requires p <= |s|
    ensures (name, next) == Component(s, p)
  {
    var a := p;
    while a < |s| && s[a] == '/'
      invariant p <= a <= |s| && SkipSlashes(s, a) == SkipSlashes(s, p)
    {
      a := a + 1;
    }
    var b := a;
    while b < |s| && s[b] != '/'
      invariant a <= b <= |s| && SkipName(s, b) == SkipName(s, a)
    {
      b := b + 1;
    }
    name, next := s[a..b], b;
    while next < |s| && s[next] == '/'
      invariant b <= next <= |s| && SkipSlashes(s, next) == SkipSlashes(s, b)
    {
      next := next + 1;
    }
  }

  /** All components of a target; at least one, which is empty for "" and "/". */
  function Components(s: string, p: nat): (r: seq<string>)
    requires p <= |s|
    ensures r != []
    decreases |s| - p
  {
    var (name, next) := Component(s, p);
    if next == |s| then [name] else [name] + Components(s, next)
  }

  /** No component holds a slash, and only a target without any name has an empty one. */
  lemma {:induction false} ComponentsAreNames(s: string, p: nat)
    requires p <= |s|
    ensures forall c :: c in Components(s, p) ==> '/' !in c
    ensures SkipSlashes(s, p) < |s| ==> forall c :: c in Components(s, p) ==> c != ""
    ensures SkipSlashes(s, p) == |s| ==> Components(s, p) == [""]
    decreases |s| - p
  {
    var a := SkipSlashes(s, p);
    var b := SkipName(s, a);
    var next := SkipSlashes(s, b);
    NoSlash(s, a);
    var name := s[a..b];
    assert a < |s| ==> b > a;
    if next < |s| {
      ComponentsAreNames(s, next);
      assert SkipSlashes(s, next) == next;
      assert Components(s, p) == [name] + Components(s, next);
    } else {
      assert Components(s, p) == [name];
    }
  }

  lemma {:induction false} NoSlash(s: string, p: nat)
    requires p <= |s|
    ensures '/' !in s[p..SkipName(s, p)]
    decreases |s| - p
  {
    if p < |s| && s[p] != '/' {
      NoSlash(s, p + 1);
      var q := SkipName(s, p);
      assert s[p..q] == [s[p]] + s[p + 1..q];
    }
  }

  // ---------- the trie ----------

  /** A component and what must follow it; None is a leaf: everything below is meant. */
  datatype PathEntry = PathEntry(name: string, sub: Option<seq<PathEntry>>)

  function IndexOf(t: seq<PathEntry>, name: string, i: nat): (r: nat)
    requires i <= |t|
    ensures i <= r <= |t| && (r < |t| ==> t[r].name == name)
    decreases |t| - i
  {
    if i < |t| && t[i].name != name then IndexOf(t, name, i + 1) else i
  }

  /** add_path on a component list. */
  function AddPath(t: seq<PathEntry>, comps: seq<string>): seq<PathEntry>
    requires comps != []
    decreases |comps|
  {
    var i, leaf := IndexOf(t, comps[0], 0), |comps| == 1;
    if i == |t| then t + [PathEntry(comps[0], if leaf then None else Some(AddPath([], comps[1..])))]
    else match t[i].sub
         case None => t
         case Some(below) => t[i := PathEntry(t[i].name, if leaf then None else Some(AddPath(below, comps[1..])))]
  }

  /** add_path as the program runs it, on the text of the target. */
  method AddPathText(t0: seq<PathEntry>, s: string, p: nat) returns (t: seq<PathEntry>)
    requires p <= |s|
    ensures t == AddPath(t0, Components(s, p))
    decreases |s| - p
  {
    t := t0;
    var name, next := GetComponent(s, p);
    ghost var comps := Components(s, p);
    assert next < |s| ==> comps[1..] == Components(s, next);
    var i := 0;
    while i < |t| && t[i].name != name
      invariant 0 <= i <= |t| && IndexOf(t, name, i) == IndexOf(t, name, 0)
    {
      i := i + 1;
    }
    if i == |t| {
      var sub := None;
      if next < |s| {
        var below := AddPathText([], s, next);
        sub := Some(below);
      }
      t := t + [PathEntry(name, sub)];
    } else if t[i].sub.Some? {
      if next == |s| {
        t := t[i := PathEntry(t[i].name, None)];
      } else {
        var below := AddPathText(t[i].sub.value, s, next);
        t := t[i := PathEntry(t[i].name, Some(below))];
      }
    }
  }

  function AddAll(targets: seq<seq<string>>): seq<PathEntry>
    requires forall i :: 0 <= i < |targets| ==> targets[i] != []
  {
    if targets == [] then [] else AddPath(AddAll(targets[..|targets| - 1]), targets[|targets| - 1])
  }

  // ---------- what a target and a trie cover ----------

  /** The target's components match a prefix of the path. */
  ghost predicate PrefixFits(fits: Fits, target: seq<string>, path: seq<string>)
  {
    |target| <= |path| && forall i :: 0 <= i < |target| ==> fits(target[i], path[i])
  }

  ghost predicate Covers(fits: Fits, t: seq<PathEntry>, path: seq<string>)
    requires path != []
    decreases |path|, 1
  {
    exists i :: 0 <= i < |t| && EntryCovers(fits, t[i], path)
  }

  ghost predicate EntryCovers(fits: Fits, e: PathEntry, path: seq<string>)
    requires path != []
    decreases |path|, 0
  {
    fits(e.name, path[0]) && (e.sub.None? || (|path| > 1 && Covers(fits, e.sub.value, path[1..])))
  }

  lemma PrefixFitsCons(fits: Fits, target: seq<string>, path: seq<string>)
    requires target != [] && path != []
    ensures PrefixFits(fits, target, path) <==>
            fits(target[0], path[0]) && (|target| == 1 || (|path| > 1 && PrefixFits(fits, target[1..], path[1..])))
  {
    if fits(target[0], path[0]) && |target| > 1 && |path| > 1 && PrefixFits(fits, target[1..], path[1..]) {
      forall i | 0 <= i < |target|
        ensures fits(target[i], path[i])
      {
        if i > 0 {
          assert target[1..][i - 1] == target[i] && path[1..][i - 1] == path[i];
        }
      }
    }
  }

  /** Changing one entry changes what the trie covers by that entry. */
  lemma CoversUpdate(fits: Fits, t: seq<PathEntry>, i: nat, e: PathEntry, path: seq<string>)
    requires path != [] && i < |t| && (EntryCovers(fits, t[i], path) ==> EntryCovers(fits, e, path))
    ensures Covers(fits, t[i := e], path) <==> Covers(fits, t, path) || EntryCovers(fits, e, path)
  {
    var u := t[i := e];
    if Covers(fits, t, path) {
      var k :| 0 <= k < |t| && EntryCovers(fits, t[k], path);
      assert EntryCovers(fits, u[k], path);
    }
    if EntryCovers(fits, e, path) {
      assert EntryCovers(fits, u[i], path);
    }
    if Covers(fits, u, path) {
      var k :| 0 <= k < |u| && EntryCovers(fits, u[k], path);
      assert k != i ==> EntryCovers(fits, t[k], path);
    }
  }

  lemma CoversSnoc(fits: Fits, t: seq<PathEntry>, e: PathEntry, path: seq<string>)
    requires path != []
    ensures Covers(fits, t + [e], path) <==> Covers(fits, t, path) || EntryCovers(fits, e, path)
  {
    var u := t + [e];
    if Covers(fits, t, path) {
      var k :| 0 <= k < |t| && EntryCovers(fits, t[k], path);
      assert EntryCovers(fits, u[k], path);
    }
    if EntryCovers(fits, e, path) {
      assert EntryCovers(fits, u[|t|], path);
    }
    if Covers(fits, u, path) {
      var k :| 0 <= k < |u| && EntryCovers(fits, u[k], path);
      assert k < |t| ==> EntryCovers(fits, t[k], path);
    }
  }

  lemma CoversNothing(fits: Fits, path: seq<string>)
    requires path != []
    ensures !Covers(fits, [], path)
  {
  }

  /** Adding a target, with all its subsumption, adds exactly what the target covers. */
  lemma {:induction false} AddPathCovers(fits: Fits, t: seq<PathEntry>, comps: seq<string>, path: seq<string>)
    requires comps != [] && path != []
    ensures Covers(fits, AddPath(t, comps), path) <==> Covers(fits, t, path) || PrefixFits(fits, comps, path)
    decreases |comps|
  {
    hide Covers, PrefixFits;
    PrefixFitsCons(fits, comps, path);
    var i, leaf := IndexOf(t, comps[0], 0), |comps| == 1;
    if i == |t| {
      var e := PathEntry(comps[0], if leaf then None else Some(AddPath([], comps[1..])));
      if !leaf && |path| > 1 {
        AddPathCovers(fits, [], comps[1..], path[1..]);
        CoversNothing(fits, path[1..]);
      }
      CoversSnoc(fits, t, e, path);
    } else if t[i].sub.None? {
      CoversUpdate(fits, t, i, t[i], path);
      assert t[i := t[i]] == t;
    } else {
      var below := t[i].sub.value;
      var e := PathEntry(t[i].name, if leaf then None else Some(AddPath(below, comps[1..])));
      if !leaf && |path| > 1 {
        AddPathCovers(fits, below, comps[1..], path[1..]);
      }
      CoversUpdate(fits, t, i, e, path);
      CoversUpdate(fits, t, i, t[i], path);
      assert t[i := t[i]] == t;
    }
  }

  ghost predicate SomeTargetFits(fits: Fits, targets: seq<seq<string>>, path: seq<string>)
  {
    exists i :: 0 <= i < |targets| && PrefixFits(fits, targets[i], path)
  }

  /** For every list of targets in any order, the trie covers a path exactly when some
      target's components match a prefix of it. */
  lemma {:induction false} AddAllCovers(fits: Fits, targets: seq<seq<string>>, path: seq<string>)
    requires path != [] && forall i :: 0 <= i < |targets| ==> targets[i] != []
    ensures Covers(fits, AddAll(targets), path) <==> SomeTargetFits(fits, targets, path)
    decreases |targets|
  {
    hide Covers, PrefixFits;
    if targets == [] {
      CoversNothing(fits, path);
    } else {
      var n := |targets| - 1;
      AddAllCovers(fits, targets[..n], path);
      AddPathCovers(fits, AddAll(targets[..n]), targets[n], path);
      if SomeTargetFits(fits, targets[..n], path) {
        var i :| 0 <= i < n && PrefixFits(fits, targets[..n][i], path);
        assert PrefixFits(fits, targets[i], path);
      }
      if SomeTargetFits(fits, targets, path) {
        var i :| 0 <= i < |targets| && PrefixFits(fits, targets[i], path);
        assert i < n ==> PrefixFits(fits, targets[..n][i], path);
      }
    }
  }

  // ---------- one level of the scan ----------

  type Tries = seq<seq<PathEntry>>

  predicate LeafIn(fits: Fits, t: seq<PathEntry>, name: string)
  {
    exists i :: 0 <= i < |t| && fits(t[i].name, name) && t[i].sub.None?
  }

  predicate LeafInSome(fits: Fits, ts: Tries, name: string)
  {
    exists n :: 0 <= n < |ts| && LeafIn(fits, ts[n], name)
  }

  /** The sub-tries below the matching entries of one trie, in order. */
  function Below(fits: Fits, t: seq<PathEntry>, name: string, k: nat): Tries
    requires k <= |t|
  {
    if k == 0 then [] else
      var e := t[k - 1];
      Below(fits, t, name, k - 1) + if fits(e.name, name) && e.sub.Some? then [e.sub.value] else []
  }

  function BelowAll(fits: Fits, ts: Tries, name: string, n: nat): Tries
    requires n <= |ts|
  {
    if n == 0 then [] else BelowAll(fits, ts, name, n - 1) + Below(fits, ts[n - 1], name, |ts[n - 1]|)
  }

  /** matches: whether the name is wanted, and what is still to be matched below it; None
      means everything below. */
  function MatchesSpec(fits: Fits, paths: Option<Tries>, name: string): (bool, Option<Tries>)
  {
    match paths
    case None => (true, None)
    case Some(ts) =>
      if LeafInSome(fits, ts, name) then (true, None)
      else if BelowAll(fits, ts, name, |ts|) == [] then (false, None)
      else (true, Some(BelowAll(fits, ts, name, |ts|)))
  }

  method Matches(fits: Fits, paths: Option<Tries>, name: string) returns (wanted: bool, below: Option<Tries>)
    ensures (wanted, below) == MatchesSpec(fits, paths, name)
  {
    if paths.None? {
      return true, None;
    }
    var ts := paths.value;
    var found: Tries := [];
    for n := 0 to |ts|
      invariant forall k :: 0 <= k < n ==> !LeafIn(fits, ts[k], name)
      invariant found == BelowAll(fits, ts, name, n)
    {
      var t := ts[n];
      ghost var before := found;
      for i := 0 to |t|
        invariant forall k :: 0 <= k < i ==> !(fits(t[k].name, name) && t[k].sub.None?)
        invariant found == before + Below(fits, t, name, i)
      {
        if fits(t[i].name, name) {
          if t[i].sub.None? {
            assert LeafIn(fits, ts[n], name);
            return true, None;
          }
          found := found + [t[i].sub.value];
        }
      }
    }
    if found == [] {
      return false, None;
    }
    return true, Some(found);
  }

  // ---------- walking down a path ----------

  /** Whether a scan that starts with `paths` extracts the non-directory at this path. */
  predicate Selected(fits: Fits, paths: Option<Tries>, path: seq<string>)
    requires path != []
    decreases |path|
  {
    var (wanted, below) := MatchesSpec(fits, paths, path[0]);
    wanted && if |path| == 1 then below.None? else Selected(fits, below, path[1..])
  }

  ghost predicate SomeCovers(fits: Fits, ts: Tries, path: seq<string>)
    requires path != []
  {
    exists n :: 0 <= n < |ts| && Covers(fits, ts[n], path)
  }

  lemma {:induction false} AllSelected(fits: Fits, path: seq<string>)
    requires path != []
    ensures Selected(fits, None, path)
    decreases |path|
  {
    if |path| > 1 {
      AllSelected(fits, path[1..]);
    }
  }

  lemma {:induction false} InBelow(fits: Fits, t: seq<PathEntry>, name: string, k: nat, below: seq<PathEntry>)
    requires k <= |t|
    ensures below in Below(fits, t, name, k) <==>
            exists i :: 0 <= i < k && fits(t[i].name, name) && t[i].sub == Some(below)
    decreases k
  {
    if k > 0 {
      InBelow(fits, t, name, k - 1, below);
    }
  }

  lemma {:induction false} InBelowAll(fits: Fits, ts: Tries, name: string, n: nat, below: seq<PathEntry>)
    requires n <= |ts|
    ensures below in BelowAll(fits, ts, name, n) <==>
            exists j :: 0 <= j < n && below in Below(fits, ts[j], name, |ts[j]|)
    decreases n
  {
    if n > 0 {
      InBelowAll(fits, ts, name, n - 1, below);
    }
  }

  /** Without a leaf match, the tries cover the path exactly when the tries below cover
      the rest of it. */
  lemma StepDown(fits: Fits, ts: Tries, path: seq<string>)
    requires |path| > 1 && !LeafInSome(fits, ts, path[0])
    ensures SomeCovers(fits, ts, path) <==> SomeCovers(fits, BelowAll(fits, ts, path[0], |ts|), path[1..])
  {
    hide Covers, Below, BelowAll;
    var name, all := path[0], BelowAll(fits, ts, path[0], |ts|);
    if SomeCovers(fits, ts, path) {
      var n :| 0 <= n < |ts| && Covers(fits, ts[n], path);
      var i := CoveringEntry(fits, ts[n], path);
      assert !LeafIn(fits, ts[n], name);
      var below := ts[n][i].sub.value;
      InBelow(fits, ts[n], name, |ts[n]|, below);
      InBelowAll(fits, ts, name, |ts|, below);
      var m :| 0 <= m < |all| && all[m] == below;
      assert Covers(fits, all[m], path[1..]);
    }
    if SomeCovers(fits, all, path[1..]) {
      var m :| 0 <= m < |all| && Covers(fits, all[m], path[1..]);
      InBelowAll(fits, ts, name, |ts|, all[m]);
      var n :| 0 <= n < |ts| && all[m] in Below(fits, ts[n], name, |ts[n]|);
      InBelow(fits, ts[n], name, |ts[n]|, all[m]);
      var i :| 0 <= i < |ts[n]| && fits(ts[n][i].name, name) && ts[n][i].sub == Some(all[m]);
      CoveredBy(fits, ts[n], i, path);
      assert Covers(fits, ts[n], path);
    }
  }

  lemma CoveringEntry(fits: Fits, t: seq<PathEntry>, path: seq<string>) returns (i: nat)
    requires path != [] && Covers(fits, t, path)
    ensures i < |t| && fits(t[i].name, path[0]) &&
            (t[i].sub.None? || (|path| > 1 && Covers(fits, t[i].sub.value, path[1..])))
  {
    i :| 0 <= i < |t| && EntryCovers(fits, t[i], path);
  }

  lemma CoveredBy(fits: Fits, t: seq<PathEntry>, i: nat, path: seq<string>)
    requires path != [] && i < |t| && fits(t[i].name, path[0])
    requires t[i].sub.None? || (|path| > 1 && Covers(fits, t[i].sub.value, path[1..]))
    ensures Covers(fits, t, path)
  {
    assert EntryCovers(fits, t[i], path);
  }

  lemma LeafCovers(fits: Fits, ts: Tries, path: seq<string>)
    requires path != [] && LeafInSome(fits, ts, path[0])
    ensures SomeCovers(fits, ts, path)
  {
    var n :| 0 <= n < |ts| && LeafIn(fits, ts[n], path[0]);
    var i :| 0 <= i < |ts[n]| && fits(ts[n][i].name, path[0]) && ts[n][i].sub.None?;
    CoveredBy(fits, ts[n], i, path);
  }

  lemma LastLevel(fits: Fits, ts: Tries, path: seq<string>)
    requires |path| == 1 && SomeCovers(fits, ts, path)
    ensures LeafInSome(fits, ts, path[0])
  {
    var n :| 0 <= n < |ts| && Covers(fits, ts[n], path);
    var i := CoveringEntry(fits, ts[n], path);
    assert LeafIn(fits, ts[n], path[0]);
  }

  /** The level-by-level match sets select exactly what the tries cover. */
  lemma {:induction false} SelectedIffCovered(fits: Fits, ts: Tries, path: seq<string>)
    requires path != []
    ensures Selected(fits, Some(ts), path) <==> SomeCovers(fits, ts, path)
    decreases |path|
  {
    hide SomeCovers, LeafInSome, BelowAll;
    if LeafInSome(fits, ts, path[0]) {
      LeafCovers(fits, ts, path);
      if |path| > 1 {
        AllSelected(fits, path[1..]);
      }
    } else if |path| == 1 {
      if SomeCovers(fits, ts, path) {
        LastLevel(fits, ts, path);
      }
    } else {
      var all := BelowAll(fits, ts, path[0], |ts|);
      StepDown(fits, ts, path);
      SelectedIffCovered(fits, all, path[1..]);
      assert all == [] ==> !SomeCovers(fits, all, path[1..]) by { NoneCovered(fits, path[1..]); }
    }
  }

  lemma NoneCovered(fits: Fits, path: seq<string>)
    requires path != []
    ensures !SomeCovers(fits, [], path)
  {
  }

  /** What main passes to the scan: no restriction without targets, else the one trie. */
  function StartPaths(targets: seq<seq<string>>): Option<Tries>
    requires forall i :: 0 <= i < |targets| ==> targets[i] != []
  {
    if targets == [] then None else Some([AddAll(targets)])
  }

  /** A non-directory is extracted exactly when there are no targets or some target's
      components match a prefix of its path. */
  lemma ExtractRule(fits: Fits, targets: seq<seq<string>>, path: seq<string>)
    requires path != [] && forall i :: 0 <= i < |targets| ==> targets[i] != []
    ensures Selected(fits, StartPaths(targets), path) <==> targets == [] || SomeTargetFits(fits, targets, path)
  {
    hide Selected, Covers, SomeTargetFits, AddAll;
    if targets == [] {
      AllSelected(fits, path);
    } else {
      var t := AddAll(targets);
      SelectedIffCovered(fits, [t], path);
      AddAllCovers(fits, targets, path);
      assert [t][0] == t;
    }
  }

  // ---------- the scan of a whole tree ----------

  datatype Node = File | Directory(entries: seq<Entry>)
  datatype Entry = Entry(name: string, node: Node)

  function Under(name: string, paths: seq<seq<string>>): (r: seq<seq<string>>)
    ensures |r| == |paths| && forall i :: 0 <= i < |r| ==> r[i] == [name] + paths[i]
  {
    if paths == [] then [] else [[name] + paths[0]] + Under(name, paths[1..])
  }

  /** The non-directories a scan creates for the first k entries of a directory, in order. */
  function Scan(fits: Fits, paths: Option<Tries>, es: seq<Entry>, k: nat): seq<seq<string>>
    requires k <= |es|
    decreases es, k
  {
    if k == 0 then [] else
      var e := es[k - 1];
      var (wanted, below) := MatchesSpec(fits, paths, e.name);
      Scan(fits, paths, es, k - 1) +
      if !wanted then []
      else if e.node.Directory? then Under(e.name, Scan(fits, below, e.node.entries, |e.node.entries|))
      else if below.None? then [[e.name]]
      else []
  }

  method DirScan(fits: Fits, paths: Option<Tries>, es: seq<Entry>) returns (made: seq<seq<string>>)
    ensures made == Scan(fits, paths, es, |es|)
    decreases es
  {
    made := [];
    for k := 0 to |es|
      invariant made == Scan(fits, paths, es, k)
    {
      var wanted, below := Matches(fits, paths, es[k].name);
      if wanted {
        if es[k].node.Directory? {
          var inner := DirScan(fits, below, es[k].node.entries);
          made := made + Under(es[k].name, inner);
        } else if below.None? {
          made := made + [[es[k].name]];
        }
      }
    }
  }

  /** The path leads to a non-directory of the tree. */
  ghost predicate HasFile(es: seq<Entry>, path: seq<string>)
    decreases |path|
  {
    path != [] && exists i :: 0 <= i < |es| && LeadsTo(es[i], path)
  }

  ghost predicate LeadsTo(e: Entry, path: seq<string>)
    requires path != []
    decreases |path|, 0
  {
    e.name == path[0] &&
    if |path| == 1 then e.node.File? else e.node.Directory? && HasFile(e.node.entries, path[1..])
  }

  lemma InUnder(name: string, paths: seq<seq<string>>, path: seq<string>)
    ensures path in Under(name, paths) <==> path != [] && path[0] == name && path[1..] in paths
  {
    var r := Under(name, paths);
    if path in r {
      var i :| 0 <= i < |r| && r[i] == path;
      assert path[1..] == paths[i];
    }
    if path != [] && path[0] == name && path[1..] in paths {
      var i :| 0 <= i < |paths| && paths[i] == path[1..];
      assert r[i] == path;
    }
  }

  /** A scan creates exactly the files of the tree whose path is selected. */
  lemma {:induction false} ScanSelects(fits: Fits, paths: Option<Tries>, es: seq<Entry>, k: nat, path: seq<string>)
    requires k <= |es|
    ensures path in Scan(fits, paths, es, k) <==>
            path != [] && Selected(fits, paths, path) && exists i :: 0 <= i < k && LeadsTo(es[i], path)
    decreases es, k
  {
    hide MatchesSpec, Under;
    if k > 0 {
      ScanSelects(fits, paths, es, k - 1, path);
      var e := es[k - 1];
      var (wanted, below) := MatchesSpec(fits, paths, e.name);
      if wanted && e.node.Directory? {
        var sub := e.node.entries;
        InUnder(e.name, Scan(fits, below, sub, |sub|), path);
        if path != [] {
          ScanSelects(fits, below, sub, |sub|, path[1..]);
        }
      } else {
        assert path == [e.name] <==> |path| == 1 && path[0] == e.name;
      }
      assert path != [] && path[0] == e.name ==> MatchesSpec(fits, paths, path[0]) == (wanted, below);
    }
  }

  /** What unsquashfs extracts from a tree for any targets in any order. */
  lemma ExtractsExactly(fits: Fits, targets: seq<seq<string>>, es: seq<Entry>, path: seq<string>)
    requires forall i :: 0 <= i < |targets| ==> targets[i] != []
    ensures path in Scan(fits, StartPaths(targets), es, |es|) <==>
            HasFile(es, path) && (targets == [] || SomeTargetFits(fits, targets, path))
  {
    hide Selected, Scan, StartPaths, LeadsTo, SomeTargetFits;
    ScanSelects(fits, StartPaths(targets), es, |es|, path);
    if path != [] {
      ExtractRule(fits, targets, path);
    }
  }

  // ---------- excludes ----------

  predicate StickyMatch(fits: Fits, sticky: seq<PathEntry>, name: string)
  {
    exists i :: 0 <= i < |sticky| && fits(sticky[i].name, name)
  }

  /** excluded: whether the name is left out, and the excludes that apply below it. */
  function ExcludedSpec(fits: Fits, sticky: seq<PathEntry>, ts: Tries, name: string): (bool, Tries)
  {
    if StickyMatch(fits, sticky, name) || LeafInSome(fits, ts, name) then (true, [])
    else (false, BelowAll(fits, ts, name, |ts|))
  }

  method Excluded(fits: Fits, sticky: seq<PathEntry>, ts: Tries, name: string) returns (out: bool, below: Tries)
    ensures (out, below) == ExcludedSpec(fits, sticky, ts, name)
  {
    for i := 0 to |sticky|
      invariant forall k :: 0 <= k < i ==> !fits(sticky[k].name, name)
    {
      if fits(sticky[i].name, name) {
        return true, [];
      }
    }
    var wanted, found := Matches(fits, Some(ts), name);
    if wanted && found.None? {
      return true, [];
    }
    below := if found.Some? then found.value else [];
    out := false;
  }

  /** The source scan leaves the path out at some level. */
  predicate Dropped(fits: Fits, sticky: seq<PathEntry>, ts: Tries, path: seq<string>)
    requires path != []
    decreases |path|
  {
    var (out, below) := ExcludedSpec(fits, sticky, ts, path[0]);
    out || (|path| > 1 && Dropped(fits, sticky, below, path[1..]))
  }

  ghost predicate StickyHit(fits: Fits, sticky: seq<PathEntry>, path: seq<string>)
  {
    exists k :: 0 <= k < |path| && StickyMatch(fits, sticky, path[k])
  }

  lemma StickyHitCons(fits: Fits, sticky: seq<PathEntry>, path: seq<string>)
    requires path != []
    ensures StickyHit(fits, sticky, path) <==>
            StickyMatch(fits, sticky, path[0]) || StickyHit(fits, sticky, path[1..])
  {
    hide StickyMatch;
    if StickyHit(fits, sticky, path) {
      var k :| 0 <= k < |path| && StickyMatch(fits, sticky, path[k]);
      assert k > 0 ==> StickyMatch(fits, sticky, path[1..][k - 1]);
    }
    if StickyHit(fits, sticky, path[1..]) {
      var k :| 0 <= k < |path[1..]| && StickyMatch(fits, sticky, path[1..][k]);
      assert StickyMatch(fits, sticky, path[k + 1]);
    }
  }

  lemma {:induction false} DroppedIffCovered(fits: Fits, sticky: seq<PathEntry>, ts: Tries, path: seq<string>)
    requires path != []
    ensures Dropped(fits, sticky, ts, path) <==> SomeCovers(fits, ts, path) || StickyHit(fits, sticky, path)
    decreases |path|
  {
    hide SomeCovers, LeafInSome, BelowAll, StickyMatch, StickyHit;
    StickyHitCons(fits, sticky, path);
    if LeafInSome(fits, ts, path[0]) {
      LeafCovers(fits, ts, path);
    } else if !StickyMatch(fits, sticky, path[0]) {
      if |path| == 1 {
        assert !StickyHit(fits, sticky, path[1..]) by { NoStickyHit(fits, sticky); }
        if SomeCovers(fits, ts, path) {
          LastLevel(fits, ts, path);
        }
      } else {
        StepDown(fits, ts, path);
        DroppedIffCovered(fits, sticky, BelowAll(fits, ts, path[0], |ts|), path[1..]);
      }
    }
  }

  lemma NoStickyHit(fits: Fits, sticky: seq<PathEntry>)
    ensures !StickyHit(fits, sticky, [])
  {
  }

  ghost predicate FirstFits(fits: Fits, targets: seq<seq<string>>, name: string)
    requires forall i :: 0 <= i < |targets| ==> targets[i] != []
  {
    exists i :: 0 <= i < |targets| && fits(targets[i][0], name)
  }

  /** A sticky trie matches a name exactly when some sticky target's first component does. */
  lemma {:induction false} StickyFirst(fits: Fits, targets: seq<seq<string>>, name: string)
    requires forall i :: 0 <= i < |targets| ==> targets[i] != []
    ensures StickyMatch(fits, AddAll(targets), name) <==> FirstFits(fits, targets, name)
    decreases |targets|
  {
    if targets != [] {
      var n := |targets| - 1;
      StickyFirst(fits, targets[..n], name);
      AddPathNames(fits, AddAll(targets[..n]), targets[n], name);
      if FirstFits(fits, targets, name) {
        var i :| 0 <= i < |targets| && fits(targets[i][0], name);
        assert i < n ==> fits(targets[..n][i][0], name);
      }
      if FirstFits(fits, targets[..n], name) {
        var i :| 0 <= i < n && fits(targets[..n][i][0], name);
        assert fits(targets[i][0], name);
      }
    }
  }

  lemma AddPathNames(fits: Fits, t: seq<PathEntry>, comps: seq<string>, name: string)
    requires comps != []
    ensures StickyMatch(fits, AddPath(t, comps), name) <==> StickyMatch(fits, t, name) || fits(comps[0], name)
  {
    var i, u := IndexOf(t, comps[0], 0), AddPath(t, comps);
    assert forall k :: 0 <= k < |t| ==> u[k].name == t[k].name;
    assert u[i].name == comps[0];
    if StickyMatch(fits, t, name) {
      var k :| 0 <= k < |t| && fits(t[k].name, name);
      assert fits(u[k].name, name);
    }
    if StickyMatch(fits, u, name) {
      var k :| 0 <= k < |u| && fits(u[k].name, name);
      assert k < |t| ==> fits(t[k].name, name);
    }
  }

  ghost predicate SomeLevelFits(fits: Fits, targets: seq<seq<string>>, path: seq<string>)
    requires forall i :: 0 <= i < |targets| ==> targets[i] != []
  {
    exists k :: 0 <= k < |path| && FirstFits(fits, targets, path[k])
  }

  /** A source path is left out exactly when some anchored target matches a prefix of it
      or some sticky target's first component matches one of its names. */
  lemma ExcludeRule(fits: Fits, anchored: seq<seq<string>>, sticky: seq<seq<string>>, path: seq<string>)
    requires path != [] && forall i :: 0 <= i < |anchored| ==> anchored[i] != []
    requires forall i :: 0 <= i < |sticky| ==> sticky[i] != []
    ensures Dropped(fits, AddAll(sticky), [AddAll(anchored)], path) <==>
            SomeTargetFits(fits, anchored, path) || SomeLevelFits(fits, sticky, path)
  {
    hide Dropped, Covers, SomeTargetFits, AddAll, StickyMatch, FirstFits;
    var t, st := AddAll(anchored), AddAll(sticky);
    DroppedIffCovered(fits, st, [t], path);
    AddAllCovers(fits, anchored, path);
    assert [t][0] == t;
    forall k | 0 <= k < |path|
      ensures StickyMatch(fits, st, path[k]) <==> FirstFits(fits, sticky, path[k])
    {
      StickyFirst(fits, sticky, path[k]);
    }
  }
}
