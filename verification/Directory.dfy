/** Directories: a sorted list of entries is written as runs, each a header followed
    by up to 256 entries that share the header's inode block and lie within 16 bits of
    its inode number; a sparse index remembers the run that begins each new 8 KiB. */
module Directory {
  import opened Bytes
  import opened Metadata

  const HEADER: nat := 12
  const ENTRY: nat := 8
  const NAME_LEN: nat := 256
  const RUN_MAX: nat := 256

  /** One name as handed to add_dir: its inode reference, inode number and type. */
  datatype DirEntry = DirEntry(ref: Ref, number: nat, name: seq<byte>, kind: nat)

  ghost predicate Storable(e: DirEntry)
  {
    && e.ref.block < 0x1_0000_0000 && e.ref.offset < 0x1_0000
    && e.number < 0x1_0000_0000 && e.kind < 0x1_0000 && e.name != []
  }

  /** Names longer than SQUASHFS_NAME_LEN are truncated. */
  function Truncated(e: DirEntry): DirEntry
  {
    if |e.name| > NAME_LEN then e.(name := e.name[..NAME_LEN]) else e
  }

  // ---------- the runs a directory is made of ----------

  datatype Run = Run(block: nat, number: nat, entries: seq<DirEntry>)

  /** A run the format can hold: its header's count and every delta fit. */
  ghost predicate RunOk(r: Run)
  {
    && 1 <= |r.entries| <= RUN_MAX
    && r.block < 0x1_0000_0000 && r.number < 0x1_0000_0000
    && forall i :: 0 <= i < |r.entries| ==> EntryOk(r, r.entries[i])
  }

  ghost predicate EntryOk(r: Run, e: DirEntry)
  {
    && Storable(e) && |e.name| <= NAME_LEN
    && e.ref.block == r.block && -0x8000 <= e.number - r.number < 0x8000
  }

  function EncodeEntry(number: nat, e: DirEntry): (s: seq<byte>)
    ensures |s| == ENTRY + |e.name|
  {
    PutLe(e.ref.offset, 2) + PutS16(e.number - number) + PutLe(e.kind, 2)
    + PutLe((|e.name| - 1) % 0x1_0000, 2) + e.name
  }

  function EncodeEntries(number: nat, es: seq<DirEntry>): seq<byte>
  {
    if es == [] then [] else EncodeEntries(number, es[..|es| - 1]) + EncodeEntry(number, es[|es| - 1])
  }

  function EncodeHeader(count: nat, block: nat, number: nat): (s: seq<byte>)
    requires count > 0
    ensures |s| == HEADER
  {
    PutLe(count - 1, 4) + PutLe(block, 4) + PutLe(number, 4)
  }

  function EncodeRun(r: Run): seq<byte>
    requires r.entries != []
  {
    EncodeHeader(|r.entries|, r.block, r.number) + EncodeEntries(r.number, r.entries)
  }

  ghost predicate RunsOk(runs: seq<Run>)
  {
    forall i :: 0 <= i < |runs| ==> RunOk(runs[i])
  }

  function EncodeRuns(runs: seq<Run>): seq<byte>
    requires forall i :: 0 <= i < |runs| ==> runs[i].entries != []
  {
    if runs == [] then [] else EncodeRuns(runs[..|runs| - 1]) + EncodeRun(runs[|runs| - 1])
  }

  function EntriesOf(runs: seq<Run>): seq<DirEntry>
  {
    if runs == [] then [] else EntriesOf(runs[..|runs| - 1]) + runs[|runs| - 1].entries
  }

  function EntriesSize(es: seq<DirEntry>): nat
  {
    if es == [] then 0 else EntriesSize(es[..|es| - 1]) + ENTRY + |es[|es| - 1].name|
  }

  /** Bytes taken by the runs. */
  function Size(runs: seq<Run>): nat
  {
    if runs == [] then 0 else Size(runs[..|runs| - 1]) + HEADER + EntriesSize(runs[|runs| - 1].entries)
  }

  lemma {:induction false} EncodeEntriesSize(number: nat, es: seq<DirEntry>)
    ensures |EncodeEntries(number, es)| == EntriesSize(es)
    decreases |es|
  {
    if es != [] {
      EncodeEntriesSize(number, es[..|es| - 1]);
    }
  }

  ghost predicate NoneEmpty(runs: seq<Run>)
  {
    forall i :: 0 <= i < |runs| ==> runs[i].entries != []
  }

  lemma {:induction false} EncodeRunsSize(runs: seq<Run>)
    requires NoneEmpty(runs)
    ensures |EncodeRuns(runs)| == Size(runs)
    decreases |runs|
  {
    hide EncodeEntries, EntriesSize, EncodeHeader;
    if runs != [] {
      var last := runs[|runs| - 1];
      EncodeRunsSize(runs[..|runs| - 1]);
      EncodeEntriesSize(last.number, last.entries);
    }
  }

  // ---------- how entries are distributed over runs ----------

  /** An index entry: where a run begins and the first name in it. */
  datatype Mark = Mark(pos: nat, name: seq<byte>)

  /** The runs so far (the last one still open), where the index last marked, the index. */
  datatype Layout = Layout(runs: seq<Run>, marked: nat, index: seq<Mark>)

  predicate CrossesBlock(l: Layout, e: DirEntry)
  {
    l.runs != [] && Size(l.runs) + ENTRY + |e.name| - l.marked > BLOCK
  }

  predicate NeedsRun(l: Layout, e: DirEntry)
  {
    || l.runs == []
    || var last := l.runs[|l.runs| - 1];
       || |last.entries| == RUN_MAX || e.ref.block != last.block || CrossesBlock(l, e)
       || e.number - last.number > 32767 || e.number - last.number < -32768
  }

  function Place(l: Layout, e0: DirEntry): Layout
  {
    var e := Truncated(e0);
    if NeedsRun(l, e) then
      var grown := l.runs + [Run(e.ref.block, e.number, [e])];
      if CrossesBlock(l, e) then Layout(grown, Size(l.runs), l.index + [Mark(Size(l.runs), e.name)])
      else l.(runs := grown)
    else
      var n := |l.runs| - 1;
      l.(runs := l.runs[..n] + [l.runs[n].(entries := l.runs[n].entries + [e])])
  }

  function Build(es: seq<DirEntry>): Layout
  {
    if es == [] then Layout([], 0, []) else Place(Build(es[..|es| - 1]), es[|es| - 1])
  }

  function AllTruncated(es: seq<DirEntry>): (r: seq<DirEntry>)
    ensures |r| == |es| && forall i :: 0 <= i < |es| ==> r[i] == Truncated(es[i])
  {
    if es == [] then [] else AllTruncated(es[..|es| - 1]) + [Truncated(es[|es| - 1])]
  }

  ghost predicate AllStorable(es: seq<DirEntry>)
  {
    forall i :: 0 <= i < |es| ==> Storable(es[i])
  }

  /** Every run fits the format: 1 to 256 entries, one inode block, 16-bit deltas. */
  lemma {:induction false} BuildRunsOk(es: seq<DirEntry>)
    requires AllStorable(es)
    ensures RunsOk(Build(es).runs)
    decreases |es|
  {
    hide CrossesBlock, Size, RunOk, Truncated, NeedsRun, Place, RunsOk, Storable;
    if es == [] {
      NoRunsOk();
    } else {
      var k := |es| - 1;
      var l, e := Build(es[..k]), Truncated(es[k]);
      BuildRunsOk(es[..k]);
      PlaceIs(l, es[k], e);
      if NeedsRun(l, e) {
        NewRunOk(es[k]);
        RunsOkSnoc(l.runs, Run(e.ref.block, e.number, [e]));
      } else {
        NeedsFirst(l, e);
        var n := |l.runs| - 1;
        RunsOkLast(l.runs);
        GrownRunOk(l, es[k]);
        RunsOkSnoc(l.runs[..n], l.runs[n].(entries := l.runs[n].entries + [e]));
      }
    }
  }

  lemma NoRunsOk()
    ensures RunsOk([])
  {
  }

  lemma NeedsFirst(l: Layout, e: DirEntry)
    requires !NeedsRun(l, e)
    ensures l.runs != []
  {
  }

  lemma RunsOkSnoc(runs: seq<Run>, r: Run)
    requires RunsOk(runs) && RunOk(r)
    ensures RunsOk(runs + [r])
  {
    hide RunOk;
  }

  lemma RunsOkLast(runs: seq<Run>)
    requires RunsOk(runs) && runs != []
    ensures RunOk(runs[|runs| - 1]) && RunsOk(runs[..|runs| - 1])
  {
    hide RunOk;
  }

  lemma NewRunOk(e0: DirEntry)
    requires Storable(e0)
    ensures var e := Truncated(e0);
            RunOk(Run(e.ref.block, e.number, [e]))
  {
  }

  lemma GrownRunOk(l: Layout, e0: DirEntry)
    requires Storable(e0) && l.runs != [] && RunOk(l.runs[|l.runs| - 1]) && !NeedsRun(l, Truncated(e0))
    ensures var r := l.runs[|l.runs| - 1];
            RunOk(r.(entries := r.entries + [Truncated(e0)]))
  {
    hide CrossesBlock;
  }

  lemma EntriesOfSnoc(runs: seq<Run>, r: Run)
    ensures EntriesOf(runs + [r]) == EntriesOf(runs) + r.entries
  {
    assert (runs + [r])[..|runs|] == runs;
  }

  /** Nothing is lost or reordered by cutting the list into runs. */
  lemma {:induction false} BuildEntries(es: seq<DirEntry>)
    ensures EntriesOf(Build(es).runs) == AllTruncated(es)
    decreases |es|
  {
    hide CrossesBlock, Size, EntriesOf, Truncated;
    EntriesOfNone();
    if es != [] {
      var k := |es| - 1;
      var l, e := Build(es[..k]), Truncated(es[k]);
      BuildEntries(es[..k]);
      if NeedsRun(l, e) {
        EntriesOfSnoc(l.runs, Run(e.ref.block, e.number, [e]));
      } else {
        var n := |l.runs| - 1;
        EntriesOfSnoc(l.runs[..n], l.runs[n]);
        TakeNext(l.runs, n);
        TakeAll(l.runs);
        EntriesOfSnoc(l.runs[..n], l.runs[n].(entries := l.runs[n].entries + [e]));
        Assoc(EntriesOf(l.runs[..n]), l.runs[n].entries, [e]);
      }
    }
  }

  // ---------- index marks ----------

  /** Mark m names the beginning of run j and that run's first name. */
  ghost predicate MarksRun(runs: seq<Run>, m: Mark, j: nat)
  {
    0 < j < |runs| && m.pos == Size(runs[..j]) && runs[j].entries != [] && m.name == runs[j].entries[0].name
  }

  ghost predicate MarksSomeRun(runs: seq<Run>, m: Mark)
  {
    exists j :: MarksRun(runs, m, j)
  }

  function Marked(index: seq<Mark>, k: int): nat
    requires -1 <= k < |index|
  {
    if k == -1 then 0 else index[k].pos
  }

  ghost predicate GapOk(index: seq<Mark>, k: nat)
    requires k < |index|
  {
    7928 < index[k].pos - Marked(index, k - 1) <= 8204
  }

  /** The index so far: each mark names a run, the gaps between marks are bounded, and
      the bytes since the last mark never reach much beyond one block. */
  ghost predicate IndexOk(l: Layout)
  {
    && (forall k :: 0 <= k < |l.index| ==> MarksSomeRun(l.runs, l.index[k]))
    && (forall k :: 0 <= k < |l.index| ==> GapOk(l.index, k))
    && l.marked == Marked(l.index, |l.index| - 1)
    && l.marked <= Size(l.runs) <= l.marked + 8204
  }

  lemma SizeSnoc(runs: seq<Run>, r: Run)
    ensures Size(runs + [r]) == Size(runs) + HEADER + EntriesSize(r.entries)
  {
    assert (runs + [r])[..|runs|] == runs;
  }

  lemma EntriesSizeSnoc(es: seq<DirEntry>, e: DirEntry)
    ensures EntriesSize(es + [e]) == EntriesSize(es) + ENTRY + |e.name|
  {
    assert (es + [e])[..|es|] == es;
  }

  lemma PlaceSize(l: Layout, e0: DirEntry)
    ensures var e := Truncated(e0);
            Size(Place(l, e0).runs) == Size(l.runs) + ENTRY + |e.name| + if NeedsRun(l, e) then HEADER else 0
  {
    hide EntriesSize, CrossesBlock;
    var e := Truncated(e0);
    if NeedsRun(l, e) {
      SizeSnoc(l.runs, Run(e.ref.block, e.number, [e]));
      EntriesSizeSnoc([], e);
      assert [] + [e] == [e];
      EntriesSizeNone();
    } else {
      var n := |l.runs| - 1;
      var last := l.runs[n];
      assert l.runs == l.runs[..n] + [last];
      SizeSnoc(l.runs[..n], last);
      SizeSnoc(l.runs[..n], last.(entries := last.entries + [e]));
      EntriesSizeSnoc(last.entries, e);
    }
  }

  lemma EntriesSizeNone()
    ensures EntriesSize([]) == 0
  {
  }

  /** A mark keeps naming its run while further entries are added. */
  lemma MarkStays(l: Layout, e: DirEntry, m: Mark, j: nat)
    requires MarksRun(l.runs, m, j)
    ensures MarksRun(Place(l, e).runs, m, j)
  {
    hide CrossesBlock, Size;
    var runs := Place(l, e).runs;
    assert runs[..j] == l.runs[..j];
  }

  lemma {:induction false} BuildIndexOk(es: seq<DirEntry>)
    requires AllStorable(es)
    ensures IndexOk(Build(es))
    decreases |es|
  {
    if es != [] {
      var l, e := Build(es[..|es| - 1]), es[|es| - 1];
      BuildIndexOk(es[..|es| - 1]);
      PlaceIndexOk(l, e);
    }
  }

  lemma MarksStay(l: Layout, e: DirEntry, m: Mark)
    requires MarksSomeRun(l.runs, m)
    ensures MarksSomeRun(Place(l, e).runs, m)
  {
    var j :| MarksRun(l.runs, m, j);
    MarkStays(l, e, m, j);
  }

  lemma NewMark(l: Layout, e0: DirEntry)
    requires CrossesBlock(l, Truncated(e0))
    ensures MarksSomeRun(Place(l, e0).runs, Mark(Size(l.runs), Truncated(e0).name))
  {
    var l' := Place(l, e0);
    assert l'.runs[..|l.runs|] == l.runs;
    assert MarksRun(l'.runs, l'.index[|l.index|], |l.runs|);
  }

  lemma PlaceIndex(l: Layout, e0: DirEntry)
    ensures var e, l' := Truncated(e0), Place(l, e0);
            var before, after := Size(l.runs), Size(l'.runs);
            && before + ENTRY + |e.name| <= after <= before + ENTRY + |e.name| + HEADER
            && if CrossesBlock(l, e) then l'.index == l.index + [Mark(before, e.name)] && l'.marked == before
               else l'.index == l.index && l'.marked == l.marked
  {
    hide Size;
    PlaceSize(l, e0);
  }

  lemma PlaceIndexOk(l: Layout, e0: DirEntry)
    requires IndexOk(l) && Storable(e0)
    ensures IndexOk(Place(l, e0))
  {
    hide Size, MarksSomeRun, Place, NeedsRun;
    var e, l' := Truncated(e0), Place(l, e0);
    PlaceIndex(l, e0);
    EmptySize();
    assert l.runs == [] ==> l.marked == 0;
    forall k | 0 <= k < |l'.index|
      ensures MarksSomeRun(l'.runs, l'.index[k])
    {
      if k < |l.index| {
        MarksStay(l, e0, l.index[k]);
      } else {
        NewMark(l, e0);
      }
    }
    forall k | 0 <= k < |l'.index|
      ensures GapOk(l'.index, k)
    {
      assert k < |l.index| ==> GapOk(l.index, k);
    }
  }

  lemma EmptySize()
    ensures Size([]) == 0
  {
  }

  /** Each index entry names a run boundary with that run's first name, and successive
      index positions differ by more than 7928 and at most 8204 bytes. */
  lemma IndexSpacing(es: seq<DirEntry>, k: nat)
    requires AllStorable(es) && k < |Build(es).index|
    ensures var l := Build(es);
            MarksSomeRun(l.runs, l.index[k])
            && 7928 < l.index[k].pos - Marked(l.index, k - 1) <= 8204
  {
    BuildIndexOk(es);
    assert GapOk(Build(es).index, k);
  }

  // ---------- reading a directory back ----------

  function DecodeEntry(s: seq<byte>, pos: nat, block: nat, number: nat): (r: Option<(DirEntry, nat)>)
    ensures r.Some? ==> pos < r.value.1 <= |s|
  {
    if pos + ENTRY > |s| then None else
    var size := GetLe(s[pos + 6..pos + 8]);
    if size > NAME_LEN || pos + ENTRY + size + 1 > |s| then None else
    Some((DirEntry(Ref(block, GetLe(s[pos..pos + 2])), (number + GetS16(s[pos + 2..pos + 4])) % 0x1_0000_0000,
                   s[pos + ENTRY..pos + ENTRY + size + 1], GetLe(s[pos + 4..pos + 6])),
          pos + ENTRY + size + 1))
  }

  function DecodeEntries(s: seq<byte>, pos: nat, block: nat, number: nat, count: nat): (r: Option<(seq<DirEntry>, nat)>)
    ensures r.Some? && count > 0 ==> pos < r.value.1
    decreases count
  {
    if count == 0 then Some(([], pos)) else
    match DecodeEntry(s, pos, block, number)
    case None => None
    case Some((e, next)) =>
      match DecodeEntries(s, next, block, number, count - 1)
      case None => None
      case Some((rest, end)) => Some(([e] + rest, end))
  }

  /** The entries of the runs in s[pos..end]; None is the "corrupted" exit. */
  function DecodeRuns(s: seq<byte>, pos: nat, end: nat): Option<seq<DirEntry>>
    decreases end - pos
  {
    if pos >= end then Some([]) else
    if pos + HEADER > |s| then None else
    var count := GetLe(s[pos..pos + 4]) + 1;
    if count > RUN_MAX then None else
    match DecodeEntries(s, pos + HEADER, GetLe(s[pos + 4..pos + 8]), GetLe(s[pos + 8..pos + 12]), count)
    case None => None
    case Some((es, next)) =>
      match DecodeRuns(s, next, end)
      case None => None
      case Some(rest) => Some(es + rest)
  }

  /** squashfs_opendir_4 and squashfs_readdir: the two nested loops. */
  method ReadDirectory(s: seq<byte>, pos0: nat, end: nat) returns (r: Option<seq<DirEntry>>)
    ensures r == DecodeRuns(s, pos0, end)
  {
    hide DecodeEntry, DecodeEntries, GetLe;
    var pos, dirs := pos0, [];
    ghost var all := DecodeRuns(s, pos0, end);
    assert all.Some? ==> dirs + all.value == all.value;
    while pos < end
      invariant match DecodeRuns(s, pos, end)
                case None => all == None
                case Some(rest) => all == Some(dirs + rest)
      decreases end - pos
    {
      if pos + HEADER > |s| {
        return None;
      }
      var count := GetLe(s[pos..pos + 4]) + 1;
      var block, number := GetLe(s[pos + 4..pos + 8]), GetLe(s[pos + 8..pos + 12]);
      if count > RUN_MAX {
        return None;
      }
      var es, next := ReadRun(s, pos + HEADER, block, number, count);
      if es.None? {
        return None;
      }
      ghost var rest := DecodeRuns(s, next, end);
      if rest.Some? {
        Assoc(dirs, es.value, rest.value);
      }
      dirs := dirs + es.value;
      pos := next;
    }
    assert dirs + [] == dirs;
    r := Some(dirs);
  }

  method ReadRun(s: seq<byte>, pos0: nat, block: nat, number: nat,
                 count: nat)
    returns (r: Option<seq<DirEntry>>, pos: nat)
    ensures match DecodeEntries(s, pos0, block, number, count)
            case None => r == None
            case Some((es, end)) => r == Some(es) && pos == end
  {
    hide DecodeEntry;
    var es, left := [], count;
    pos := pos0;
    ghost var all := DecodeEntries(s, pos0, block, number, count);
    assert all.Some? ==> es + all.value.0 == all.value.0;
    while left > 0
      invariant match DecodeEntries(s, pos, block, number, left)
                case None => all == None
                case Some((rest, end)) => all == Some((es + rest, end))
    {
      var one := DecodeEntry(s, pos, block, number);
      if one.None? {
        return None, pos;
      }
      var (e, next) := one.value;
      ghost var rest := DecodeEntries(s, next, block, number, left - 1);
      assert rest.Some? ==> es + ([e] + rest.value.0) == (es + [e]) + rest.value.0;
      es := es + [e];
      pos := next;
      left := left - 1;
    }
    assert es + [] == es;
    r := Some(es);
  }

  lemma EntryBack(s: seq<byte>, pos: nat, r: Run, e: DirEntry)
    requires EntryOk(r, e) && Holds(s, pos, EncodeEntry(r.number, e))
    ensures DecodeEntry(s, pos, r.block, r.number) == Some((e, pos + ENTRY + |e.name|))
  {
    var whole := EncodeEntry(r.number, e);
    EntryFields(r.number, e);
    Spans();
    hide PutLe, PutS16, GetS16, GetLe, EncodeEntry;
    LeRoundTrip(e.ref.offset, 2);
    S16RoundTrip(e.number - r.number);
    LeRoundTrip(e.kind, 2);
    LeRoundTrip(|e.name| - 1, 2);
    Field(s, pos, whole, 0, PutLe(e.ref.offset, 2));
    Field(s, pos, whole, 2, PutS16(e.number - r.number));
    Field(s, pos, whole, 4, PutLe(e.kind, 2));
    Field(s, pos, whole, 6, PutLe((|e.name| - 1) % 0x1_0000, 2));
    Field(s, pos, whole, 8, e.name);
  }

  lemma EntryFields(number: nat, e: DirEntry)
    ensures var whole := EncodeEntry(number, e);
            && whole[0..2] == PutLe(e.ref.offset, 2) && whole[2..4] == PutS16(e.number - number)
            && whole[4..6] == PutLe(e.kind, 2) && whole[6..8] == PutLe((|e.name| - 1) % 0x1_0000, 2)
            && whole[8..] == e.name
  {
    hide PutLe, PutS16;
  }

  lemma Field(s: seq<byte>, pos: nat, whole: seq<byte>, q: nat, part: seq<byte>)
    requires Holds(s, pos, whole) && q + |part| <= |whole| && whole[q..q + |part|] == part
    ensures s[pos + q..pos + q + |part|] == part
  {
    assert forall i | 0 <= i < |part| :: s[pos + q + i] == whole[q + i] == part[i];
  }

  lemma {:induction false} EntriesBack(s: seq<byte>, pos: nat, r: Run, k: nat)
    requires RunOk(r) && k <= |r.entries|
    requires Holds(s, pos, EncodeEntries(r.number, r.entries))
    ensures DecodeEntries(s, pos + EntriesSize(r.entries[..k]), r.block, r.number, |r.entries| - k)
         == Some((r.entries[k..], pos + EntriesSize(r.entries)))
    decreases |r.entries| - k
  {
    hide EncodeEntry, DecodeEntry, EncodeEntries, EntriesSize;
    var n := |r.entries|;
    if k == n {
      assert r.entries[..n] == r.entries;
    } else {
      EntryInRun(r.number, r.entries, k);
      HoldsTrans(s, pos, EncodeEntries(r.number, r.entries), EntriesSize(r.entries[..k]),
                 EncodeEntry(r.number, r.entries[k]));
      EntryBack(s, pos + EntriesSize(r.entries[..k]), r, r.entries[k]);
      TakeNext(r.entries, k);
      EntriesSizeSnoc(r.entries[..k], r.entries[k]);
      EntriesBack(s, pos, r, k + 1);
      assert r.entries[k..] == [r.entries[k]] + r.entries[k + 1..];
    }
  }

  lemma {:induction false} EntryInRun(number: nat, es: seq<DirEntry>, k: nat)
    requires k < |es|
    ensures Holds(EncodeEntries(number, es), EntriesSize(es[..k]), EncodeEntry(number, es[k]))
    decreases |es|
  {
    hide EncodeEntry, EntriesSize;
    var n := |es| - 1;
    EncodeEntriesSize(number, es[..n]);
    if k < n {
      EntryInRun(number, es[..n], k);
      assert es[..n][..k] == es[..k];
      HoldsGrow(EncodeEntries(number, es[..n]), EncodeEntry(number, es[n]), EntriesSize(es[..k]),
                EncodeEntry(number, es[k]));
    }
  }

  lemma {:induction false} RunInRuns(runs: seq<Run>, k: nat)
    requires RunsOk(runs) && k < |runs|
    ensures Holds(EncodeRuns(runs), Size(runs[..k]), EncodeRun(runs[k]))
    decreases |runs|
  {
    hide EncodeRun, Size;
    var n := |runs| - 1;
    EncodeRunsSize(runs[..n]);
    if k < n {
      RunInRuns(runs[..n], k);
      assert runs[..n][..k] == runs[..k];
      HoldsGrow(EncodeRuns(runs[..n]), EncodeRun(runs[n]), Size(runs[..k]), EncodeRun(runs[k]));
    }
  }

  lemma RunFields(r: Run)
    requires r.entries != []
    ensures var whole := EncodeRun(r);
            && |whole| >= 12 && whole[0..4] == PutLe(|r.entries| - 1, 4) && whole[4..8] == PutLe(r.block, 4)
            && whole[8..12] == PutLe(r.number, 4) && whole[12..] == EncodeEntries(r.number, r.entries)
  {
    hide PutLe, EncodeEntries;
  }

  lemma RunBack(s: seq<byte>, pos: nat, r: Run)
    requires RunOk(r) && Holds(s, pos, EncodeRun(r))
    ensures pos + HEADER <= |s|
    ensures GetLe(s[pos..pos + 4]) + 1 == |r.entries|
    ensures GetLe(s[pos + 4..pos + 8]) == r.block && GetLe(s[pos + 8..pos + 12]) == r.number
    ensures Holds(s, pos + HEADER, EncodeEntries(r.number, r.entries))
    ensures DecodeEntries(s, pos + HEADER, r.block, r.number, |r.entries|)
         == Some((r.entries, pos + HEADER + EntriesSize(r.entries)))
  {
    hide PutLe, GetLe, EncodeEntries, EntriesSize, DecodeEntries, EncodeRun;
    var n, whole := |r.entries| - 1, EncodeRun(r);
    RunFields(r);
    Spans();
    LeRoundTrip(n, 4);
    LeRoundTrip(r.block, 4);
    LeRoundTrip(r.number, 4);
    Field(s, pos, whole, 0, PutLe(n, 4));
    Field(s, pos, whole, 4, PutLe(r.block, 4));
    Field(s, pos, whole, 8, PutLe(r.number, 4));
    Field(s, pos, whole, 12, EncodeEntries(r.number, r.entries));
    EntriesBack(s, pos + HEADER, r, 0);
    assert r.entries[..0] == [] && r.entries[0..] == r.entries;
    EntriesSizeNone();
  }

  lemma {:induction false} RunsBack(s: seq<byte>, pos: nat, runs: seq<Run>, k: nat)
    requires RunsOk(runs) && k <= |runs| && Holds(s, pos, EncodeRuns(runs))
    ensures DecodeRuns(s, pos + Size(runs[..k]), pos + Size(runs)) == Some(EntriesOf(runs[k..]))
    decreases |runs| - k
  {
    hide EncodeRuns, EncodeRun, Size, DecodeEntries, EntriesSize, EntriesOf;
    var n := |runs|;
    if k == n {
      TakeAll(runs);
      EntriesOfNone();
    } else {
      var r := runs[k];
      RunInRuns(runs, k);
      HoldsTrans(s, pos, EncodeRuns(runs), Size(runs[..k]), EncodeRun(r));
      RunBack(s, pos + Size(runs[..k]), r);
      TakeNext(runs, k);
      SizeSnoc(runs[..k], r);
      RunsBack(s, pos, runs, k + 1);
      EntriesOfCons(r, runs[k + 1..]);
      DropNext(runs, k);
      SizeMonotone(runs, k + 1);
    }
  }

  lemma EntriesOfNone()
    ensures EntriesOf([]) == []
  {
  }

  lemma {:induction false} EntriesOfCons(r: Run, rest: seq<Run>)
    ensures EntriesOf([r] + rest) == r.entries + EntriesOf(rest)
    decreases |rest|
  {
    if rest == [] {
      EntriesOfSnoc([], r);
      assert [r] + rest == [] + [r];
    } else {
      var n := |rest| - 1;
      EntriesOfCons(r, rest[..n]);
      EntriesOfSnoc([r] + rest[..n], rest[n]);
      assert [r] + rest == ([r] + rest[..n]) + [rest[n]];
      assert EntriesOf(rest) == EntriesOf(rest[..n]) + rest[n].entries;
      Assoc(r.entries, EntriesOf(rest[..n]), rest[n].entries);
    }
  }

  lemma {:induction false} SizeMonotone(runs: seq<Run>, k: nat)
    requires k <= |runs|
    ensures Size(runs[..k]) <= Size(runs)
    decreases |runs|
  {
    if k == |runs| {
      assert runs[..k] == runs;
    } else {
      SizeMonotone(runs[..|runs| - 1], k);
      assert runs[..|runs| - 1][..k] == runs[..k];
    }
  }

  /** The bytes of a directory. */
  function EncodeDir(es: seq<DirEntry>): seq<byte>
    requires AllStorable(es)
  {
    BuildRunsOk(es);
    EncodeRuns(Build(es).runs)
  }

  lemma RunsRoundTrip(es: seq<DirEntry>, s: seq<byte>, pos: nat)
    requires AllStorable(es) && RunsOk(Build(es).runs) && Holds(s, pos, EncodeRuns(Build(es).runs))
    ensures DecodeRuns(s, pos, pos + Size(Build(es).runs)) == Some(AllTruncated(es))
  {
    hide Build, DecodeRuns, EncodeRuns, Size;
    var runs := Build(es).runs;
    RunsBack(s, pos, runs, 0);
    assert runs[..0] == [] && runs[0..] == runs;
    EmptySize();
    BuildEntries(es);
  }

  /** Decoding an encoded directory returns the same names (cut to 256 bytes), inode
      references, inode numbers and types, wherever it stands in a directory table. */
  lemma DirectoryRoundTrip(es: seq<DirEntry>, s: seq<byte>, pos: nat)
    requires AllStorable(es) && Holds(s, pos, EncodeDir(es))
    ensures DecodeRuns(s, pos, pos + |EncodeDir(es)|) == Some(AllTruncated(es))
  {
    hide Build, DecodeRuns, EncodeRuns, Size, AllStorable, AllTruncated;
    BuildRunsOk(es);
    RunsNoneEmpty(Build(es).runs);
    EncodeRunsSize(Build(es).runs);
    RunsRoundTrip(es, s, pos);
  }

  lemma RunsNoneEmpty(runs: seq<Run>)
    requires RunsOk(runs)
    ensures NoneEmpty(runs)
  {
  }

  // ---------- the size a short directory inode can record ----------

  /** byte_count of dir_scan6. */
  function ByteCount(es: seq<DirEntry>): nat
  {
    if es == [] then 0 else ByteCount(es[..|es| - 1]) + |es[|es| - 1].name| + ENTRY
  }

  lemma {:induction false} BuildSizeBound(es: seq<DirEntry>)
    ensures |Build(es).runs| <= |es|
    ensures Size(Build(es).runs) <= ByteCount(es) + HEADER * |es|
    decreases |es|
  {
    hide CrossesBlock, Size;
    if es == [] {
      EmptySize();
    } else {
      BuildSizeBound(es[..|es| - 1]);
      PlaceSize(Build(es[..|es| - 1]), es[|es| - 1]);
    }
  }

  /** When dir_scan6 lets a directory use the short inode, its size plus three always
      fits the inode's 16-bit field. */
  lemma ShortInodeHoldsSize(es: seq<DirEntry>)
    requires |es| < 257 && ByteCount(es) < BLOCK
    ensures Size(Build(es).runs) + 3 < 0x1_0000
  {
    BuildSizeBound(es);
  }

  // ---------- the buffer as add_dir updates it ----------

  /** Placing an entry, case by case. */
  lemma PlaceIs(l: Layout, e0: DirEntry, e: DirEntry)
    requires e == Truncated(e0)
    ensures var p := Place(l, e0);
            if NeedsRun(l, e) then
              p.runs == l.runs + [Run(e.ref.block, e.number, [e])] &&
              (if CrossesBlock(l, e) then p.marked == Size(l.runs) && p.index == l.index + [Mark(Size(l.runs), e.name)]
               else p.marked == l.marked && p.index == l.index)
            else
              p.marked == l.marked && p.index == l.index &&
              (l.runs != [] ==>
                 p.runs ==
                 l.runs[..|l.runs| - 1] + [l.runs[|l.runs| - 1].(entries := l.runs[|l.runs| - 1].entries + [e])])
  {
    hide Size;
  }

  lemma PlaceRuns(l: Layout, e0: DirEntry, e: DirEntry, closed: seq<Run>, last: Run)
    requires e == Truncated(e0)
    requires NeedsRun(l, e) ==> closed == l.runs && last == Run(e.ref.block, e.number, [])
    requires !NeedsRun(l, e) ==> l.runs != [] && closed == l.runs[..|l.runs| - 1] && last == l.runs[|l.runs| - 1]
    ensures Place(l, e0).runs == closed + [last.(entries := last.entries + [e])]
  {
    hide NeedsRun, Place, CrossesBlock;
    PlaceIs(l, e0, e);
    assert [] + [e] == [e];
  }

  lemma CrossesIs(l: Layout, e: DirEntry)
    ensures CrossesBlock(l, e) <==> l.runs != [] && Size(l.runs) + ENTRY + |e.name| - l.marked > BLOCK
    ensures CrossesBlock(l, e) ==> NeedsRun(l, e)
  {
    hide Size;
  }

  lemma LastRun(closed: seq<Run>, last: Run)
    ensures (closed + [last])[..|closed|] == closed && (closed + [last])[|closed|] == last
  {
  }

  /** struct directory. The header of the open run is a gap of 12 bytes that is filled
      in when the run is closed; `layout` records what has been added. */
  class DirBuffer {
    var buff: seq<byte>
    var entryCount: nat
    var entryCountP: Option<nat>
    var startBlock: nat
    var inodeNumber: nat
    var indexCountP: nat
    var index: seq<Mark>
    ghost var layout: Layout

    ghost predicate Valid()
      reads this
    {
      && NoneEmpty(layout.runs) && index == layout.index && indexCountP == layout.marked
      && |buff| == Size(layout.runs)
      && if layout.runs == [] then entryCountP == None && entryCount == RUN_MAX
         else OpenRun(layout.runs[..|layout.runs| - 1], layout.runs[|layout.runs| - 1])
    }

    ghost predicate OpenRun(closed: seq<Run>, last: Run)
      requires NoneEmpty(closed)
      reads this`entryCountP, this`entryCount, this`startBlock, this`inodeNumber, this`buff
    {
      && entryCountP == Some(Size(closed)) && entryCount == |last.entries|
      && startBlock == last.block && inodeNumber == last.number
      && |buff| == Size(closed) + HEADER + EntriesSize(last.entries)
      && buff[..Size(closed)] == EncodeRuns(closed)
      && buff[Size(closed) + HEADER..] == EncodeEntries(last.number, last.entries)
    }

    /** scan7_init_dir: the count of 256 forces the first entry to open a run. */
    constructor ()
      ensures Valid() && layout == Build([])
    {
      buff, entryCount, entryCountP, indexCountP, index := [], RUN_MAX, None, 0, [];
      startBlock, inodeNumber := 0, 0;
      layout := Layout([], 0, []);
    }

    /** Fill in the header of the open run. */
    method CloseRun(ghost closed: seq<Run>, ghost last: Run)
      requires NoneEmpty(closed) && last.entries != [] && OpenRun(closed, last)
      modifies this`buff
      ensures buff == EncodeRuns(closed + [last])
    {
      hide EncodeHeader, EncodeEntries, EntriesSize, Size, EncodeRuns;
      var q := entryCountP.value;
      buff := buff[..q] + EncodeHeader(entryCount, startBlock, inodeNumber) + buff[q + HEADER..];
      assert buff == EncodeRuns(closed) + EncodeRun(last);
      EncodeRunsSnoc(closed, last);
    }

    /** Close the open run, if any, and leave room for the next header. */
    method StartRun(e: DirEntry, crosses: bool)
      requires Valid()
      requires crosses == (|buff| + ENTRY + |e.name| - indexCountP > BLOCK)
      modifies this
      ensures layout == old(layout) && OpenRun(layout.runs, Run(e.ref.block, e.number, []))
      ensures if layout.runs != [] && crosses
              then index == old(index) + [Mark(old(|buff|), e.name)] && indexCountP == old(|buff|)
              else index == old(index) && indexCountP == old(indexCountP)
    {
      hide EncodeHeader, EncodeEntries, EncodeEntry, EntriesSize, Size, EncodeRuns;
      var p := |buff|;
      if entryCountP.Some? {
        if crosses {
          index := index + [Mark(p, e.name)];
          indexCountP := p;
        }
        ghost var n := |layout.runs| - 1;
        CloseRun(layout.runs[..n], layout.runs[n]);
        assert layout.runs == layout.runs[..n] + [layout.runs[n]];
      }
      EncodeRunsSize(layout.runs);
      EncodeNoRuns();
      entryCountP, startBlock, entryCount, inodeNumber := Some(p), e.ref.block, 0, e.number;
      buff := buff + [0, 0, 0, 0, 0, 0, 0, 0, 0, 0, 0, 0];
    }

    /** Makes sure there is a run the entry can go into, starting one if need be. */
    method OpenFor(e: DirEntry, crosses: bool) returns (ghost closed: seq<Run>, ghost last: Run)
      requires Valid() && crosses == (|buff| + ENTRY + |e.name| - indexCountP > BLOCK)
      modifies this
      ensures layout == old(layout) && NoneEmpty(closed) && OpenRun(closed, last)
      ensures NeedsRun(layout, e) ==> closed == layout.runs && last == Run(e.ref.block, e.number, [])
      ensures !NeedsRun(layout, e) ==>
                layout.runs != [] && closed == layout.runs[..|layout.runs| - 1] &&
                last == layout.runs[|layout.runs| - 1]
      ensures if NeedsRun(layout, e) && layout.runs != [] && crosses
              then index == old(index) + [Mark(old(|buff|), e.name)] && indexCountP == old(|buff|)
              else index == old(index) && indexCountP == old(indexCountP)
    {
      hide EncodeHeader, EncodeEntries, EncodeEntry, EntriesSize, Size, EncodeRuns, EncodeRun;
      closed, last := layout.runs, Run(e.ref.block, e.number, []);
      if entryCount == RUN_MAX || e.ref.block != startBlock || (entryCountP.Some? && crosses)
         || e.number - inodeNumber > 32767 || e.number - inodeNumber < -32768
      {
        StartRun(e, crosses);
      } else {
        ghost var n := |layout.runs| - 1;
        closed, last := layout.runs[..n], layout.runs[n];
      }
    }

    /** add_dir. */
    method AddDir(e0: DirEntry)
      requires Valid() && e0.name != []
      modifies this
      ensures Valid() && layout == Place(old(layout), e0)
    {
      hide EncodeHeader, EncodeEntries, EncodeEntry, EntriesSize, Size, EncodeRuns, EncodeRun, NeedsRun, Place, OpenRun,
        NoneEmpty;
      hide Valid, CrossesBlock;
      ValidFacts();
      var e := if |e0.name| > NAME_LEN then e0.(name := e0.name[..NAME_LEN]) else e0;
      var crosses := |buff| + ENTRY + |e.name| - indexCountP > BLOCK;
      ghost var before := layout;
      CrossesIs(before, e);
      ghost var closed, last := OpenFor(e, crosses);
      AppendEntry(closed, last, e);
      layout := Place(layout, e0);
      PlaceIs(before, e0, e);
      PlaceRuns(before, e0, e, closed, last);
      NowValid(closed, last.(entries := last.entries + [e]));
    }

    lemma ValidFacts()
      requires Valid()
      ensures |buff| == Size(layout.runs) && index == layout.index && indexCountP == layout.marked
    {
    }

    lemma NowValid(closed: seq<Run>, last: Run)
      requires NoneEmpty(closed) && OpenRun(closed, last) && last.entries != [] && layout.runs == closed + [last]
      requires index == layout.index && indexCountP == layout.marked
      ensures Valid()
    {
      hide EncodeHeader, EncodeEntries, EntriesSize, Size, EncodeRuns, OpenRun;
      LastRun(closed, last);
      SizeSnoc(closed, last);
      OpenSize(closed, last);
    }

    lemma OpenSize(closed: seq<Run>, last: Run)
      requires NoneEmpty(closed) && OpenRun(closed, last) && last.entries != []
      ensures |buff| == Size(closed) + HEADER + EntriesSize(last.entries) && NoneEmpty(closed + [last])
    {
      hide EncodeHeader, EncodeEntries, EntriesSize, Size, EncodeRuns;
    }

    method AppendEntry(ghost closed: seq<Run>, ghost last: Run, e: DirEntry)
      requires NoneEmpty(closed) && OpenRun(closed, last)
      modifies this`buff, this`entryCount
      ensures OpenRun(closed, last.(entries := last.entries + [e]))
    {
      hide EncodeEntry, EncodeRuns, Size, EntriesSize, EncodeEntries;
      var added := EncodeEntry(inodeNumber, e);
      EncodeEntriesSnoc(last.number, last.entries, e);
      EntriesSizeSnoc(last.entries, e);
      buff := buff + added;
      entryCount := entryCount + 1;
    }
  }

  lemma EncodeRunsSnoc(runs: seq<Run>, r: Run)
    requires NoneEmpty(runs) && r.entries != []
    ensures EncodeRuns(runs + [r]) == EncodeRuns(runs) + EncodeRun(r)
  {
    assert (runs + [r])[..|runs|] == runs;
  }

  lemma EncodeNoRuns()
    ensures EncodeRuns([]) == [] && EncodeEntries(0, []) == [] && EntriesSize([]) == 0 && Size([]) == 0
    ensures forall n: nat :: EncodeEntries(n, []) == []
  {
  }

  lemma EncodeEntriesSnoc(number: nat, es: seq<DirEntry>, e: DirEntry)
    ensures EncodeEntries(number, es + [e]) == EncodeEntries(number, es) + EncodeEntry(number, e)
  {
    assert (es + [e])[..|es|] == es;
  }
}
