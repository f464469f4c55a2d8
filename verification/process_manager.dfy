/**
 * The consumer side of the process snapshot pipeline (`ProcessManager`):
 * priming, draining the collector's mailbox and starting the next pass,
 * and turning a snapshot into the process tree.
 *
 * The Qt tree is modelled as data: a sequence of core nodes, each holding its
 * process nodes, each holding the thread nodes loaded so far. The live
 * `proc_obj.threads()` / `psutil.Process(pid).threads()` query is the
 * parameter `threadsOf`, `None` when it raises.
 */
module ProcessManager {
  import opened Wrappers
  import opened Seqs
  import opened Text
  import opened ProcessCollector
  import CpuTab

  /** At most this many processes are shown per core, and this many threads per process. */
  const ShownPerCore: nat := 10
  const ThreadsShown: nat := 10

  function Min(a: nat, b: nat): nat { if a <= b then a else b }

  // ---------------------------------------------------------------- stable sort by CPU%, descending

  predicate SortedDesc(s: seq<Entry>) {
    forall i, j :: 0 <= i < j < |s| ==> s[i].cpu >= s[j].cpu
  }

  /** The entries of `s` whose CPU value is exactly `k`, in order. */
  function CpuIs(k: real): Entry -> bool {
    (e: Entry) => e.cpu == k
  }

  /**
   * Places `x` into the descending sequence `s` after every entry whose CPU
   * value is at least `x`'s, so that equal values keep their arrival order.
   */
  function Insert(x: Entry, s: seq<Entry>): (r: seq<Entry>)
    ensures multiset(r) == multiset(s) + multiset{x}
    ensures |r| == |s| + 1
    decreases |s|
  {
    if s == [] || s[|s| - 1].cpu >= x.cpu then s + [x]
    else
      assert s == s[..|s| - 1] + [s[|s| - 1]];
      Insert(x, s[..|s| - 1]) + [s[|s| - 1]]
  }

  lemma {:induction false} InsertSorted(x: Entry, s: seq<Entry>)
    requires SortedDesc(s)
    ensures SortedDesc(Insert(x, s))
    decreases |s|
  {
    if s != [] && s[|s| - 1].cpu < x.cpu {
      var init := s[..|s| - 1];
      var last := s[|s| - 1];
      assert s == init + [last];
      InsertSorted(x, init);
      var r0 := Insert(x, init);
      forall i | 0 <= i < |r0|
        ensures r0[i].cpu >= last.cpu
      {
        assert r0[i] in multiset(r0);
        if r0[i] != x {
          assert r0[i] in multiset(init);
          assert r0[i] in init;
          var j :| 0 <= j < |init| && init[j] == r0[i];
          assert s[j] == init[j];
        }
      }
      var r := Insert(x, s);
      assert r == r0 + [last];
    }
  }

  /** `core_procs.sort(key=lambda x: x[0], reverse=True)`: insertion sort from the front. */
  function SortByCpu(s: seq<Entry>): (r: seq<Entry>)
    ensures SortedDesc(r)
    ensures multiset(r) == multiset(s)
    ensures |r| == |s|
    decreases |s|
  {
    if s == [] then []
    else
      assert s == s[..|s| - 1] + [s[|s| - 1]];
      InsertSorted(s[|s| - 1], SortByCpu(s[..|s| - 1]));
      Insert(s[|s| - 1], SortByCpu(s[..|s| - 1]))
  }

  /** `[e]` when `e` has CPU value `k`, else `[]`: what `e` contributes to the ties at `k`. */
  function Tie(k: real, e: Entry): (r: seq<Entry>)
    ensures r == (if CpuIs(k)(e) then [e] else [])
  {
    if e.cpu == k then [e] else []
  }

  lemma InsertPassesSmaller(x: Entry, init: seq<Entry>, last: Entry, k: real)
    requires last.cpu < x.cpu
    ensures Filter(Insert(x, init + [last]), CpuIs(k)) == Filter(Insert(x, init), CpuIs(k)) + Tie(k, last)
  {
    var s := init + [last];
    assert s[..|s| - 1] == init;
    assert Insert(x, s) == Insert(x, init) + [last];
    FilterAppendLast(Insert(x, init), last, CpuIs(k));
  }

  lemma TiesCommute(p: seq<Entry>, x: Entry, last: Entry, k: real)
    requires last.cpu < x.cpu
    ensures p + Tie(k, x) + Tie(k, last) == p + Tie(k, last) + Tie(k, x)
  {
  }

  /** One step of `InsertKeepsTies`: `x` passes an entry with a smaller CPU value. */
  lemma InsertKeepsTiesStep(x: Entry, init: seq<Entry>, last: Entry, k: real)
    requires last.cpu < x.cpu
    requires Filter(Insert(x, init), CpuIs(k)) == Filter(init, CpuIs(k)) + Tie(k, x)
    ensures Filter(Insert(x, init + [last]), CpuIs(k)) == Filter(init + [last], CpuIs(k)) + Tie(k, x)
  {
    InsertPassesSmaller(x, init, last, k);
    TiesCommute(Filter(init, CpuIs(k)), x, last, k);
    FilterAppendLast(init, last, CpuIs(k));
  }

  /** Inserting `x` adds it to the ties at its own CPU value, after the existing ones. */
  lemma {:induction false} InsertKeepsTies(x: Entry, s: seq<Entry>, k: real)
    ensures Filter(Insert(x, s), CpuIs(k)) == Filter(s, CpuIs(k)) + Tie(k, x)
    decreases |s|
  {
    if s == [] || s[|s| - 1].cpu >= x.cpu {
      FilterAppendLast(s, x, CpuIs(k));
    } else {
      var init := s[..|s| - 1];
      assert s == init + [s[|s| - 1]];
      InsertKeepsTies(x, init, k);
      InsertKeepsTiesStep(x, init, s[|s| - 1], k);
    }
  }

  /** The sort is stable: entries with equal CPU values keep their enumeration order. */
  lemma {:induction false} SortIsStable(s: seq<Entry>, k: real)
    ensures Filter(SortByCpu(s), CpuIs(k)) == Filter(s, CpuIs(k))
    decreases |s|
  {
    if s != [] {
      var init := s[..|s| - 1];
      var last := s[|s| - 1];
      assert s == init + [last];
      SortIsStable(init, k);
      InsertKeepsTies(last, SortByCpu(init), k);
      FilterAppendLast(init, last, CpuIs(k));
    }
  }

  /** `core_procs[:10]` after the sort: the shown processes of one core. */
  function Top(bucket: seq<Entry>): (r: seq<Entry>)
    ensures |r| == Min(ShownPerCore, |bucket|)
    ensures r == SortByCpu(bucket)[..|r|]
    ensures SortedDesc(r)
    ensures multiset(r) <= multiset(bucket)
  {
    var sorted := SortByCpu(bucket);
    var k := Min(ShownPerCore, |bucket|);
    assert sorted == sorted[..k] + sorted[k..];
    assert multiset(sorted) == multiset(sorted[..k]) + multiset(sorted[k..]);
    sorted[..k]
  }

  /** In a descending sequence, the first `k` entries dominate whatever is left after them. */
  lemma {:induction false} PrefixDominates(sorted: seq<Entry>, k: nat, e: Entry, i: nat)
    requires SortedDesc(sorted) && i < k <= |sorted|
    requires e in multiset(sorted) - multiset(sorted[..k])
    ensures sorted[i].cpu >= e.cpu
  {
    var top := sorted[..k];
    var rest := sorted[k..];
    assert sorted == top + rest;
    assert multiset(sorted) == multiset(top) + multiset(rest);
    assert e in rest;
    var j :| 0 <= j < |rest| && rest[j] == e;
    assert sorted[k + j] == e;
  }

  /** No process left out of a core's top ten uses more CPU than any shown one. */
  lemma {:induction false} TopShowsLargest(bucket: seq<Entry>, e: Entry, i: nat)
    requires e in multiset(bucket) - multiset(Top(bucket))
    requires i < |Top(bucket)|
    ensures Top(bucket)[i].cpu >= e.cpu
  {
    var sorted := SortByCpu(bucket);
    var k := Min(ShownPerCore, |bucket|);
    assert Top(bucket) == sorted[..k];
    PrefixDominates(sorted, k, e, i);
  }

  function CpuOf(e: Entry): real { e.cpu }

  // ---------------------------------------------------------------- the tree as data

  datatype ThreadNode = ThreadNode(caption: string, idText: string)

  /** A process row: columns name, PID, CPU, memory, threads and core, plus its expansion state. */
  datatype ProcNode = ProcNode(
    name: string, pidText: string, cpu: real, mem: real, threads: nat, coreText: string,
    expanded: bool,
    indicator: bool,            // `ShowIndicator`: threads can be loaded lazily
    children: seq<ThreadNode>
  )

  /** A core row: its caption, the summed CPU of its shown processes, its expansion state. */
  datatype CoreNode = CoreNode(caption: string, cpuTotal: real, expanded: bool, children: seq<ProcNode>)

  function CoreLabel(core: nat): string { "CPU Core " + NatToString(core) }

  /** The thread rows added for the thread ids of one process: the first ten. */
  function ThreadNodes(ids: seq<nat>): (r: seq<ThreadNode>)
    ensures |r| == Min(ThreadsShown, |ids|)
  {
    var k := Min(ThreadsShown, |ids|);
    seq(k, i requires 0 <= i < k => ThreadNode("Thread " + NatToString(ids[i]), NatToString(ids[i])))
  }

  /** Each thread row shows the id of the thread at the same position, readable back as that id. */
  lemma ThreadIdsReadBack(ids: seq<nat>, i: nat)
    requires i < |ThreadNodes(ids)|
    ensures ParseInt(ThreadNodes(ids)[i].idText) == Some(ids[i] as int)
  {
    NatToStringRoundTrip(ids[i]);
  }

  /**
   * The row for one shown process. It is expanded (and its threads loaded)
   * iff its PID was saved as expanded under this core; otherwise a
   * multi-threaded process gets the lazy-load indicator.
   */
  function ProcNodeOf(e: Entry, core: nat, savedProcs: map<int, set<int>>, threadsOf: nat -> Option<seq<nat>>): (p: ProcNode)
    ensures p.expanded <==> core in savedProcs && e.pid in savedProcs[core]
    ensures p.indicator <==> !p.expanded && e.threads > 1
    ensures |p.children| <= ThreadsShown
    ensures p.children != [] ==> p.expanded && e.threads > 1
    ensures IsDigits(p.pidText) && DigitsValue(p.pidText) == e.pid
    ensures p.name == e.name && p.cpu == e.cpu && p.mem == e.mem && p.threads == e.threads
    ensures p.coreText == NatToString(core)
    ensures p.expanded && e.threads > 1 && threadsOf(e.pid).Some? ==>
      p.children == ThreadNodes(threadsOf(e.pid).value)
    ensures threadsOf(e.pid).None? ==> p.children == []
  {
    var expanded := core in savedProcs && e.pid in savedProcs[core];
    var children :=
      if expanded && e.threads > 1 then
        (match threadsOf(e.pid) case Some(ids) => ThreadNodes(ids) case None => [])
      else [];
    NatToStringRoundTrip(e.pid);
    ProcNode(e.name, NatToString(e.pid), e.cpu, e.mem, e.threads, NatToString(core),
             expanded, !expanded && e.threads > 1, children)
  }

  /** The node for core `core`: expanded on the first build or when saved as expanded. */
  function CoreNodeOf(core: nat, bucket: seq<Entry>, first: bool, savedCores: set<int>,
                      savedProcs: map<int, set<int>>, threadsOf: nat -> Option<seq<nat>>): (c: CoreNode)
    ensures c.caption == CoreLabel(core)
    ensures c.expanded <==> first || core in savedCores
    ensures |c.children| == Min(ShownPerCore, |bucket|)
    ensures forall i :: 0 <= i < |c.children| ==>
      c.children[i] == ProcNodeOf(Top(bucket)[i], core, savedProcs, threadsOf)
    ensures c.cpuTotal == SumReal(Apply(Top(bucket), CpuOf))
  {
    var top := Top(bucket);
    CoreNode(CoreLabel(core), SumReal(Apply(top, CpuOf)), first || core in savedCores,
             seq(|top|, i requires 0 <= i < |top| => ProcNodeOf(top[i], core, savedProcs, threadsOf)))
  }

  /** How many of the cores `0..n-1` are reached before the first missing bucket. */
  function PresentPrefix(n: nat, buckets: map<nat, seq<Entry>>): (k: nat)
    ensures k <= n
    ensures forall i: nat :: i < k ==> i in buckets
    ensures k < n ==> k !in buckets
    decreases n
  {
    if n == 0 then 0
    else
      var k := PresentPrefix(n - 1, buckets);
      if k == n - 1 && n - 1 in buckets then n else k
  }

  function RowCpu(row: ProcNode): real { row.cpu }

  /** A core row's CPU value is the sum of the CPU column of the process rows shown under it. */
  lemma CoreTotalIsShownSum(core: nat, bucket: seq<Entry>, first: bool, savedCores: set<int>,
                            savedProcs: map<int, set<int>>, threadsOf: nat -> Option<seq<nat>>)
    ensures var c := CoreNodeOf(core, bucket, first, savedCores, savedProcs, threadsOf);
      c.cpuTotal == SumReal(Apply(c.children, RowCpu))
  {
    var c := CoreNodeOf(core, bucket, first, savedCores, savedProcs, threadsOf);
    assert Apply(c.children, RowCpu) == Apply(Top(bucket), CpuOf);
  }

  /**
   * The process rows under a core descend by CPU, and no process of the
   * bucket left out of them uses more CPU than any shown row.
   */
  lemma CoreRowsShowLargest(core: nat, bucket: seq<Entry>, first: bool, savedCores: set<int>,
                            savedProcs: map<int, set<int>>, threadsOf: nat -> Option<seq<nat>>, e: Entry)
    ensures var c := CoreNodeOf(core, bucket, first, savedCores, savedProcs, threadsOf);
      forall i, j :: 0 <= i < j < |c.children| ==> c.children[i].cpu >= c.children[j].cpu
    ensures var c := CoreNodeOf(core, bucket, first, savedCores, savedProcs, threadsOf);
      e in multiset(bucket) - multiset(Top(bucket)) ==>
        forall i :: 0 <= i < |c.children| ==> c.children[i].cpu >= e.cpu
  {
    var c := CoreNodeOf(core, bucket, first, savedCores, savedProcs, threadsOf);
    var top := Top(bucket);
    assert forall i :: 0 <= i < |c.children| ==> c.children[i].cpu == top[i].cpu;
    if e in multiset(bucket) - multiset(top) {
      forall i | 0 <= i < |c.children|
        ensures c.children[i].cpu >= e.cpu
      {
        TopShowsLargest(bucket, e, i);
      }
    }
  }

  /**
   * `_build_process_tree`: one node per core `0..n-1`, in order. A missing
   * bucket raises `KeyError`, which ends the build there; the flag says
   * whether the build completed.
   */
  function BuildTree(n: nat, buckets: map<nat, seq<Entry>>, first: bool, savedCores: set<int>,
                     savedProcs: map<int, set<int>>, threadsOf: nat -> Option<seq<nat>>): (res: (seq<CoreNode>, bool))
    ensures res.1 <==> forall i: nat :: i < n ==> i in buckets
    ensures res.1 ==> |res.0| == n
    ensures !res.1 ==> |res.0| < n && |res.0| !in buckets
    ensures forall i :: 0 <= i < |res.0| ==>
      i in buckets && res.0[i] == CoreNodeOf(i, buckets[i], first, savedCores, savedProcs, threadsOf)
  {
    var k := PresentPrefix(n, buckets);
    (seq(k, i requires 0 <= i < k => CoreNodeOf(i, buckets[i], first, savedCores, savedProcs, threadsOf)), k == n)
  }

  // ---------------------------------------------------------------- saving the expansion state

  /** `int(core_text.split()[-1])`; `None` where Python raises. */
  function CoreIdOf(caption: string): Option<int> {
    var ws := Words(caption);
    if ws == [] then None else ParseInt(ws[|ws| - 1])
  }

  /** The PIDs of the expanded process rows whose PID text is all digits. */
  function ExpandedPids(rows: seq<ProcNode>): (pids: set<int>)
    ensures forall i :: 0 <= i < |rows| && rows[i].expanded && IsDigits(rows[i].pidText) ==>
      DigitsValue(rows[i].pidText) in pids
    ensures forall p :: p in pids ==>
      exists i :: 0 <= i < |rows| && rows[i].expanded && IsDigits(rows[i].pidText) && p == DigitsValue(rows[i].pidText)
    decreases |rows|
  {
    if rows == [] then {}
    else
      var init := rows[..|rows| - 1];
      var r := rows[|rows| - 1];
      var rest := ExpandedPids(init);
      assert forall i :: 0 <= i < |init| ==> rows[i] == init[i];
      if r.expanded && IsDigits(r.pidText) then rest + {DigitsValue(r.pidText) as int} else rest
  }

  /**
   * The saving fold, with the label reader `idOf` as a parameter: the ids of
   * the expanded core rows whose label reads as an id, and for each such core
   * its non-empty set of expanded PIDs. A row whose label does not read is
   * skipped; a later row with the same id overwrites the PID set.
   */
  function SaveWith(tree: seq<CoreNode>, idOf: string -> Option<int>): (res: (set<int>, map<int, set<int>>))
    ensures res.1.Keys <= res.0
    ensures forall k :: k in res.1 ==> res.1[k] != {}
    decreases |tree|
  {
    if tree == [] then ({}, map[])
    else
      var (cores, procs) := SaveWith(tree[..|tree| - 1], idOf);
      var c := tree[|tree| - 1];
      if !c.expanded then (cores, procs)
      else
        match idOf(c.caption)
        case None => (cores, procs)
        case Some(id) =>
          var pids := ExpandedPids(c.children);
          (cores + {id}, if pids != {} then procs[id := pids] else procs)
  }

  /** `_save_expansion_state`: the saving fold with core ids read by `int(text.split()[-1])`. */
  function SaveExpansion(tree: seq<CoreNode>): (res: (set<int>, map<int, set<int>>))
    ensures res.1.Keys <= res.0
  {
    SaveWith(tree, CoreIdOf)
  }

  /** A core label reads back as its core id. */
  lemma CoreLabelParses(core: nat)
    ensures CoreIdOf(CoreLabel(core)) == Some(core as int)
  {
    var d := NatToString(core);
    var ws := ["CPU", "Core", d];
    assert JoinWords(ws) == "CPU" + " " + JoinWords(ws[1..]);
    assert JoinWords(ws[1..]) == "Core" + " " + JoinWords(ws[2..]);
    assert JoinWords(ws) == CoreLabel(core);
    assert IsWord(d);
    WordsJoinWords(ws);
    NatToStringRoundTrip(core);
  }

  /** `pid` is among the shown processes of the bucket. */
  ghost predicate Shown(bucket: seq<Entry>, pid: int) {
    exists j :: 0 <= j < |Top(bucket)| && Top(bucket)[j].pid == pid
  }

  /** The PIDs saved from a freshly built core row: the shown PIDs that were saved before. */
  lemma {:induction false} ExpandedPidsOfCore(core: nat, bucket: seq<Entry>, first: bool, savedCores: set<int>,
                                              savedProcs: map<int, set<int>>, threadsOf: nat -> Option<seq<nat>>, pid: int)
    ensures var rows := CoreNodeOf(core, bucket, first, savedCores, savedProcs, threadsOf).children;
      pid in ExpandedPids(rows) <==> core in savedProcs && pid in savedProcs[core] && Shown(bucket, pid)
  {
    var top := Top(bucket);
    var rows := CoreNodeOf(core, bucket, first, savedCores, savedProcs, threadsOf).children;
    assert forall j :: 0 <= j < |top| ==> rows[j] == ProcNodeOf(top[j], core, savedProcs, threadsOf);
    if pid in ExpandedPids(rows) {
      var i :| 0 <= i < |rows| && rows[i].expanded && IsDigits(rows[i].pidText) && pid == DigitsValue(rows[i].pidText);
      assert top[i].pid == pid;
    }
    if core in savedProcs && pid in savedProcs[core] && Shown(bucket, pid) {
      var j :| 0 <= j < |top| && top[j].pid == pid;
      assert rows[j].expanded && DigitsValue(rows[j].pidText) == pid;
    }
  }

  /** Every core row reads back as its own position. */
  ghost predicate Labelled(tree: seq<CoreNode>, idOf: string -> Option<int>) {
    forall i :: 0 <= i < |tree| ==> idOf(tree[i].caption) == Some(i)
  }

  lemma {:induction false} LabelledPrefix(tree: seq<CoreNode>, idOf: string -> Option<int>)
    requires Labelled(tree, idOf) && tree != []
    ensures Labelled(tree[..|tree| - 1], idOf)
    ensures idOf(tree[|tree| - 1].caption) == Some(|tree| - 1)
  {
    var init := tree[..|tree| - 1];
    forall i | 0 <= i < |init|
      ensures idOf(init[i].caption) == Some(i)
    {
      assert init[i] == tree[i];
    }
  }

  /** On a tree whose rows read back as their positions, the saved cores are exactly the expanded rows. */
  lemma {:induction false} SaveLabelledCores(tree: seq<CoreNode>, idOf: string -> Option<int>)
    requires Labelled(tree, idOf)
    ensures forall c: int :: c in SaveWith(tree, idOf).0 <==> 0 <= c < |tree| && tree[c].expanded
    decreases |tree|
  {
    if tree != [] {
      var n := |tree| - 1;
      var init := tree[..n];
      LabelledPrefix(tree, idOf);
      SaveLabelledCores(init, idOf);
      assert forall i :: 0 <= i < n ==> init[i] == tree[i];
      assert SaveWith(tree, idOf).0 == if tree[n].expanded then SaveWith(init, idOf).0 + {n} else SaveWith(init, idOf).0;
    }
  }

  /** ... and each such row's PIDs are recorded exactly when it has expanded PIDs. */
  lemma {:induction false} SaveLabelledProcs(tree: seq<CoreNode>, idOf: string -> Option<int>)
    requires Labelled(tree, idOf)
    ensures var procs := SaveWith(tree, idOf).1;
      && (forall c: int :: c in procs <==> 0 <= c < |tree| && tree[c].expanded && ExpandedPids(tree[c].children) != {})
      && (forall c: int :: c in procs ==> procs[c] == ExpandedPids(tree[c].children))
    decreases |tree|
  {
    if tree != [] {
      var n := |tree| - 1;
      var init := tree[..n];
      var last := tree[n];
      LabelledPrefix(tree, idOf);
      SaveLabelledProcs(init, idOf);
      assert forall i :: 0 <= i < n ==> init[i] == tree[i];
      var procs0 := SaveWith(init, idOf).1;
      var pids := ExpandedPids(last.children);
      assert SaveWith(tree, idOf).1 ==
        if last.expanded && pids != {} then procs0[n := pids] else procs0;
    }
  }

  lemma BuildLabelled(n: nat, buckets: map<nat, seq<Entry>>, first: bool, savedCores: set<int>,
                      savedProcs: map<int, set<int>>, threadsOf: nat -> Option<seq<nat>>)
    ensures Labelled(BuildTree(n, buckets, first, savedCores, savedProcs, threadsOf).0, CoreIdOf)
  {
    var t := BuildTree(n, buckets, first, savedCores, savedProcs, threadsOf).0;
    forall i | 0 <= i < |t|
      ensures CoreIdOf(t[i].caption) == Some(i)
    {
      CoreLabelParses(i);
    }
  }

  /**
   * Saving the expansion state of a complete build recovers what the build
   * was given: exactly the cores it expanded, and for each of them exactly
   * the saved PIDs that are still shown (recorded only when there are some).
   */
  lemma SaveAfterBuild(n: nat, buckets: map<nat, seq<Entry>>, first: bool, savedCores: set<int>,
                       savedProcs: map<int, set<int>>, threadsOf: nat -> Option<seq<nat>>)
    requires forall i: nat :: i < n ==> i in buckets
    ensures var (cores, procs) := SaveExpansion(BuildTree(n, buckets, first, savedCores, savedProcs, threadsOf).0);
      && (forall c: int :: c in cores <==> 0 <= c < n && (first || c in savedCores))
      && (forall c: int :: c in procs ==> forall pid: int ::
            pid in procs[c] <==> 0 <= c < n && c in savedProcs && pid in savedProcs[c] && Shown(buckets[c], pid))
      && (forall c: int :: c in procs <==>
            c in cores && c in savedProcs && exists pid :: pid in savedProcs[c] && Shown(buckets[c], pid))
  {
    var t := BuildTree(n, buckets, first, savedCores, savedProcs, threadsOf).0;
    BuildLabelled(n, buckets, first, savedCores, savedProcs, threadsOf);
    SaveLabelledCores(t, CoreIdOf);
    SaveLabelledProcs(t, CoreIdOf);
    forall c: int, pid: int | 0 <= c < n
      ensures pid in ExpandedPids(t[c].children) <==> c in savedProcs && pid in savedProcs[c] && Shown(buckets[c], pid)
    {
      ExpandedPidsOfCore(c, buckets[c], first, savedCores, savedProcs, threadsOf, pid);
    }
  }

  // ---------------------------------------------------------------- lazy thread loading

  /**
   * `on_proc_item_expanded`: loads up to ten thread rows, only when the row has
   * no children yet and its PID text is all digits; a failing query adds nothing.
   */
  function OnProcItemExpanded(row: ProcNode, threadsOf: nat -> Option<seq<nat>>): (row': ProcNode)
    ensures row' == row || (row.children == [] && IsDigits(row.pidText) && row' == row.(children := row'.children))
    ensures |row.children| > 0 || !IsDigits(row.pidText) ==> row' == row
    ensures |row'.children| <= ThreadsShown || row' == row
    ensures row.children == [] && IsDigits(row.pidText) ==>
      match threadsOf(DigitsValue(row.pidText))
      case None => row' == row
      case Some(ids) => |row'.children| == Min(ThreadsShown, |ids|)
  {
    if |row.children| > 0 || !IsDigits(row.pidText) then row
    else
      match threadsOf(DigitsValue(row.pidText))
      case None => row
      case Some(ids) => row.(children := ThreadNodes(ids))
  }

  /** After a successful load, thread row `i` shows the `i`-th thread id of the process. */
  lemma ExpandShowsThreadIds(row: ProcNode, threadsOf: nat -> Option<seq<nat>>, i: nat)
    requires row.children == [] && IsDigits(row.pidText)
    requires threadsOf(DigitsValue(row.pidText)).Some?
    requires i < |OnProcItemExpanded(row, threadsOf).children|
    ensures var ids := threadsOf(DigitsValue(row.pidText)).value;
      i < |ids| && ParseInt(OnProcItemExpanded(row, threadsOf).children[i].idText) == Some(ids[i] as int)
  {
    ThreadIdsReadBack(threadsOf(DigitsValue(row.pidText)).value, i);
  }

  // ---------------------------------------------------------------- the manager

  /** The class-level collector slot and the per-window process-tab state. */
  datatype Manager = Manager(
    collector: Option<Collector>,  // `ProcessManager._collector`
    primed: bool,                  // `monitor._procs_primed`
    treeBuilt: bool,               // `hasattr(monitor, "_proc_tree_built")`
    tree: seq<CoreNode>,           // `monitor.proc_tree`
    summary: Option<(nat, nat)>    // process and thread counts on the summary label
  )

  /** A held collector is consistent and not shut down (shutting down also forgets it). */
  ghost predicate Valid(m: Manager) {
    m.collector.Some? ==> ProcessCollector.Valid(m.collector.value) && !m.collector.value.shutdown
  }

  function Initial(): (m: Manager)
    ensures Valid(m) && m.collector.None? && !m.primed && !m.treeBuilt
  {
    Manager(None, false, false, [], None)
  }

  /** `initialize_collector`: creates a collector only when there is none. */
  function InitializeCollector(m: Manager): (m': Manager)
    requires Valid(m)
    ensures Valid(m') && m'.collector.Some?
    ensures m.collector.Some? ==> m' == m
    ensures m.collector.None? ==> m' == m.(collector := Some(NewCollector()))
  {
    if m.collector.None? then m.(collector := Some(NewCollector())) else m
  }

  /**
   * `shutdown_collector`: shuts the collector down and forgets it; nothing
   * happens when there is none. The second component is the collector as it
   * was left by its shutdown.
   */
  function ShutdownCollector(m: Manager): (res: (Manager, Option<Collector>))
    requires Valid(m)
    ensures Valid(res.0) && res.0.collector.None?
    ensures res.0 == m.(collector := None)
    ensures m.collector.None? ==> res.1.None?
    ensures m.collector.Some? ==> res.1.Some? && res.1.value.shutdown && !res.1.value.collecting
  {
    match m.collector
    case None => (m, None)
    case Some(c) => (m.(collector := None), Some(Shutdown(c)))
  }

  /**
   * `_update_ui_with_result`: saves the expansion state, rebuilds the tree for
   * the snapshot's `len(core_processes)` cores and, when the build completes,
   * updates the summary. The collector is untouched.
   */
  function UpdateUiWithResult(m: Manager, r: Snapshot, threadsOf: nat -> Option<seq<nat>>): (m': Manager)
    ensures m'.collector == m.collector && m'.primed == m.primed && m'.treeBuilt
    ensures var (cores, procs) := SaveExpansion(m.tree);
      var built := BuildTree(|r.coreProcesses|, r.coreProcesses, !m.treeBuilt, cores, procs, threadsOf);
      m'.tree == built.0
      && m'.summary == (if built.1 then Some((r.procCount, r.totalThreads)) else m.summary)
  {
    var (cores, procs) := SaveExpansion(m.tree);
    var (t, ok) := BuildTree(|r.coreProcesses|, r.coreProcesses, !m.treeBuilt, cores, procs, threadsOf);
    m.(treeBuilt := true, tree := t, summary := if ok then Some((r.procCount, r.totalThreads)) else m.summary)
  }

  /**
   * `refresh_processes`. The first call only primes the per-process CPU
   * counters. Later calls create the collector if needed, drain one result
   * into the tree, then start a pass over `cpuCount or 1` cores with the
   * current filter unless one is running.
   */
  function RefreshProcesses(m: Manager, cpuCount: Option<nat>, filter: string,
                            threadsOf: nat -> Option<seq<nat>>): (m': Manager)
    requires Valid(m)
    ensures Valid(m')
    ensures !m.primed ==> m' == m.(primed := true)
    ensures m.primed ==> m'.collector.Some? && m'.primed
  {
    if !m.primed then m.(primed := true)
    else
      var c := if m.collector.None? then NewCollector() else m.collector.value;
      var (c1, result) := GetResult(c);
      var m1 := m.(collector := Some(c1));
      var m2 := if result.Some? then UpdateUiWithResult(m1, result.value, threadsOf) else m1;
      if !IsCollecting(c1) then m2.(collector := Some(CollectAsync(c1, CpuTab.CoreCount(cpuCount), filter)))
      else m2
  }

  // ---------------------------------------------------------------- properties of the pipeline

  /** A snapshot's buckets for cores `0..n-1` number exactly `n`. */
  lemma {:induction false} BucketCount(m: map<nat, seq<Entry>>, n: nat)
    requires HasCores(m, n)
    ensures |m| == n
    decreases n
  {
    if n > 0 {
      var m0 := map i | i in m && i < n - 1 :: m[i];
      assert m0.Keys + {n - 1} == m.Keys;
      assert HasCores(m0, n - 1);
      BucketCount(m0, n - 1);
      assert |m.Keys| == |m0.Keys| + 1;
    }
  }

  /**
   * A refresh after priming drains the mailbox: a held snapshot is rendered
   * (tree and summary), the mailbox is empty afterwards, and when no pass was
   * running a new one is submitted for `cpuCount or 1` cores with `filter`.
   */
  lemma {:induction false} RefreshDrainsThenStarts(m: Manager, cpuCount: Option<nat>, filter: string,
                                                   threadsOf: nat -> Option<seq<nat>>)
    requires Valid(m) && m.primed && m.collector.Some?
    ensures var m' := RefreshProcesses(m, cpuCount, filter, threadsOf);
      var c := m.collector.value;
      var c' := m'.collector.value;
      && c'.mailbox.None?
      && c'.collecting
      && (c.mailbox.None? ==> m'.tree == m.tree && m'.summary == m.summary)
      && (c.mailbox.Some? ==> m'.tree == UpdateUiWithResult(m, c.mailbox.value, threadsOf).tree)
      && (c.collecting ==> c'.job == c.job)
      && (!c.collecting && !c.shutdown ==>
            c'.job == Some(Job(CpuTab.CoreCount(cpuCount), filter, EmptySnapshot(CpuTab.CoreCount(cpuCount)))))
  {
    var c := m.collector.value;
    var (c1, result) := GetResult(c);
    var m1 := m.(collector := Some(c1));
    assert result == c.mailbox;
    if result.Some? {
      assert UpdateUiWithResult(m1, result.value, threadsOf).tree == UpdateUiWithResult(m, result.value, threadsOf).tree;
    }
  }

  /** A snapshot from the collector builds completely, with one node per core, and updates the summary. */
  lemma {:induction false} CollectorSnapshotBuildsCompletely(m: Manager, r: Snapshot, n: nat,
                                                             threadsOf: nat -> Option<seq<nat>>)
    requires HasCores(r.coreProcesses, n)
    ensures var m' := UpdateUiWithResult(m, r, threadsOf);
      |m'.tree| == n && m'.summary == Some((r.procCount, r.totalThreads))
      && forall i :: 0 <= i < n ==> m'.tree[i].caption == CoreLabel(i)
  {
    BucketCount(r.coreProcesses, n);
  }

  /** The first build expands every core; later builds expand exactly the cores that were expanded. */
  lemma {:induction false} ExpansionSurvivesRebuild(m: Manager, r1: Snapshot, r2: Snapshot, n: nat,
                                                    threadsOf: nat -> Option<seq<nat>>)
    requires HasCores(r1.coreProcesses, n) && HasCores(r2.coreProcesses, n) && !m.treeBuilt
    ensures var m1 := UpdateUiWithResult(m, r1, threadsOf);
      var m2 := UpdateUiWithResult(m1, r2, threadsOf);
      && |m1.tree| == n && |m2.tree| == n
      && (forall i :: 0 <= i < |m1.tree| ==> m1.tree[i].expanded)
      && (forall i :: 0 <= i < |m2.tree| ==> m2.tree[i].expanded)
  {
    BucketCount(r1.coreProcesses, n);
    BucketCount(r2.coreProcesses, n);
    var m1 := UpdateUiWithResult(m, r1, threadsOf);
    var (cores, procs) := SaveExpansion(m.tree);
    SaveAfterBuild(n, r1.coreProcesses, true, cores, procs, threadsOf);
  }
}
