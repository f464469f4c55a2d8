/**
 * The background process snapshotter (`ProcessCollector`).
 *
 * One enumeration pass is a left fold of `Step` over the processes psutil
 * yields. The collector object is a small state record: the `collecting` and
 * `shutdown` flags, the single-slot result mailbox, and the job the worker is
 * running. The worker is modelled one process at a time (`WorkerStep`) so that
 * a shutdown can arrive in the middle of a pass.
 */
module ProcessCollector {
  import opened Wrappers
  import opened Seqs
  import opened Text

  /** What psutil reports for one process; `None` is a missing attribute or a query that raised. */
  datatype ProcInfo = ProcInfo(
    pid: nat,
    name: Option<string>,
    memPercent: Option<real>,
    numThreads: Option<nat>,
    cpuPercent: Option<real>,   // `p.cpu_percent(None)`
    affinity: Option<seq<nat>>  // `p.cpu_affinity()`
  )

  /** One row of a snapshot: the tuple `(cpu, pid, name, mem, threads)`. */
  datatype Entry = Entry(cpu: real, pid: nat, name: string, mem: real, threads: nat)

  /** The result dictionary of one pass. */
  datatype Snapshot = Snapshot(
    coreProcesses: map<nat, seq<Entry>>,
    allCores: seq<Entry>,
    totalThreads: nat,
    procCount: nat,
    error: Option<string>
  )

  /** The snapshot's buckets are exactly the cores `0..n-1`. */
  ghost predicate HasCores(m: map<nat, seq<Entry>>, n: nat) {
    forall i: nat :: i in m <==> i < n
  }

  function ThreadCount(p: ProcInfo): nat { p.numThreads.GetOr(0) }

  /** The row recorded for a process; a failed CPU query records 0.0. */
  function EntryOf(p: ProcInfo): (e: Entry)
    ensures p.cpuPercent.None? ==> e.cpu == 0.0
    ensures p.cpuPercent.Some? ==> e.cpu == p.cpuPercent.value
    ensures e.name == p.name.GetOr("") && e.mem == p.memPercent.GetOr(0.0)
    ensures e.pid == p.pid && e.threads == ThreadCount(p)
  {
    Entry(p.cpuPercent.GetOr(0.0), p.pid, p.name.GetOr(""), p.memPercent.GetOr(0.0), ThreadCount(p))
  }

  /**
   * The search filter: an empty filter keeps everything; otherwise the filter
   * must occur in the lower-cased name or in the decimal PID. The filter itself
   * is compared as given (the caller lower-cases it).
   */
  predicate Matches(p: ProcInfo, filter: string) {
    filter == [] || Contains(Lower(p.name.GetOr("")), filter) || Contains(NatToString(p.pid), filter)
  }

  /** Affinity is a non-empty list shorter than the core count: filed per core. */
  predicate Pinned(p: ProcInfo, n: nat) {
    p.affinity.Some? && 0 < |p.affinity.value| < n
  }

  /** `{i: [] for i in range(n)}` */
  function EmptyBuckets(n: nat): (m: map<nat, seq<Entry>>)
    ensures HasCores(m, n)
    ensures forall i :: i in m ==> m[i] == []
    decreases n
  {
    if n == 0 then map[] else EmptyBuckets(n - 1)[n - 1 := []]
  }

  /** The result a pass starts from. */
  function EmptySnapshot(n: nat): (s: Snapshot)
    ensures HasCores(s.coreProcesses, n) && s.error.None?
  {
    Snapshot(EmptyBuckets(n), [], 0, 0, None)
  }

  /** The result when the pass itself fails: empty buckets, zero counts, the message. */
  function ErrorSnapshot(n: nat, msg: string): (s: Snapshot)
    ensures HasCores(s.coreProcesses, n)
    ensures forall i :: i in s.coreProcesses ==> s.coreProcesses[i] == []
    ensures s.allCores == [] && s.procCount == 0 && s.totalThreads == 0 && s.error == Some(msg)
  {
    Snapshot(EmptyBuckets(n), [], 0, 0, Some(msg))
  }

  /** Appends `e` to the bucket of every listed core below `n`, in list order. */
  function AddToCores(m: map<nat, seq<Entry>>, cores: seq<nat>, n: nat, e: Entry): (m': map<nat, seq<Entry>>)
    requires HasCores(m, n)
    ensures HasCores(m', n)
    decreases |cores|
  {
    if cores == [] then m
    else
      var m1 := AddToCores(m, cores[..|cores| - 1], n, e);
      var c := cores[|cores| - 1];
      if c < n then m1[c := m1[c] + [e]] else m1
  }

  /** One iteration of the enumeration loop. */
  function Step(acc: Snapshot, p: ProcInfo, n: nat, filter: string): (r: Snapshot)
    requires HasCores(acc.coreProcesses, n)
    ensures HasCores(r.coreProcesses, n) && r.error == acc.error
    ensures r.procCount == acc.procCount + 1
    ensures r.totalThreads == acc.totalThreads + ThreadCount(p)
  {
    var counted := acc.(procCount := acc.procCount + 1, totalThreads := acc.totalThreads + ThreadCount(p));
    if !Matches(p, filter) then counted
    else if Pinned(p, n) then
      counted.(coreProcesses := AddToCores(counted.coreProcesses, p.affinity.value, n, EntryOf(p)))
    else
      counted.(allCores := counted.allCores + [EntryOf(p)])
  }

  /** A whole pass over the enumerated processes, in enumeration order. */
  function Pass(procs: seq<ProcInfo>, n: nat, filter: string): (r: Snapshot)
    ensures HasCores(r.coreProcesses, n) && r.error.None?
    ensures r.procCount == |procs|
    decreases |procs|
  {
    if procs == [] then EmptySnapshot(n)
    else Step(Pass(procs[..|procs| - 1], n, filter), procs[|procs| - 1], n, filter)
  }

  // ---------------------------------------------------------------- the collector object

  /** A submitted collection: its arguments and what the worker has gathered so far. */
  datatype Job = Job(nCores: nat, filter: string, acc: Snapshot)

  datatype Collector = Collector(
    collecting: bool,
    shutdown: bool,
    mailbox: Option<Snapshot>,  // the `Queue(maxsize=1)`
    job: Option<Job>            // the job submitted to the executor, while it runs
  )

  /** `collecting` is set exactly while a submitted job has not completed. */
  ghost predicate Valid(c: Collector) {
    && (c.collecting <==> c.job.Some?)
    && (c.job.Some? ==> HasCores(c.job.value.acc.coreProcesses, c.job.value.nCores))
  }

  /** A freshly constructed collector. */
  function NewCollector(): (c: Collector)
    ensures Valid(c) && !c.collecting && !c.shutdown && c.mailbox.None?
  {
    Collector(false, false, None, None)
  }

  /**
   * `collect_async(n_cores, proc_filter)`: a no-op while collecting or after
   * shutdown; otherwise sets `collecting` and submits exactly one job.
   */
  function CollectAsync(c: Collector, n: nat, filter: string): (c': Collector)
    requires Valid(c)
    ensures Valid(c')
    ensures c.collecting || c.shutdown ==> c' == c
    ensures !c.collecting && !c.shutdown ==>
      c' == c.(collecting := true, job := Some(Job(n, filter, EmptySnapshot(n))))
  {
    if c.collecting || c.shutdown then c
    else c.(collecting := true, job := Some(Job(n, filter, EmptySnapshot(n))))
  }

  /** `_on_collection_complete`: clears `collecting`; the mailbox then holds exactly `result`. */
  function Complete(c: Collector, result: Snapshot): (c': Collector)
    ensures Valid(c') && !c'.collecting && c'.mailbox == Some(result)
    ensures c'.shutdown == c.shutdown
  {
    c.(collecting := false, job := None, mailbox := Some(result))
  }

  /**
   * The worker handles the next process of its pass. The loop checks the
   * shutdown flag before each process and stops once it is set.
   */
  function WorkerStep(c: Collector, p: ProcInfo): (c': Collector)
    requires Valid(c)
    ensures Valid(c')
    ensures c'.collecting == c.collecting && c'.shutdown == c.shutdown && c'.mailbox == c.mailbox
    ensures c.shutdown || c.job.None? ==> c' == c
  {
    match c.job
    case None => c
    case Some(j) =>
      if c.shutdown then c
      else c.(job := Some(j.(acc := Step(j.acc, p, j.nCores, j.filter))))
  }

  /** The worker's pass ends normally: the gathered snapshot is published. */
  function WorkerFinish(c: Collector): (c': Collector)
    requires Valid(c)
    ensures Valid(c') && !c'.collecting && c'.shutdown == c.shutdown
    ensures c.job.None? ==> c' == c
    ensures c.job.Some? ==> c'.mailbox == Some(c.job.value.acc)
  {
    match c.job
    case None => c
    case Some(j) => Complete(c, j.acc)
  }

  /** The worker's pass raises: the error snapshot is published instead. */
  function WorkerFail(c: Collector, msg: string): (c': Collector)
    requires Valid(c)
    ensures Valid(c') && !c'.collecting && c'.shutdown == c.shutdown
    ensures c.job.None? ==> c' == c
    ensures c.job.Some? ==> c'.mailbox == Some(ErrorSnapshot(c.job.value.nCores, msg))
  {
    match c.job
    case None => c
    case Some(j) => Complete(c, ErrorSnapshot(j.nCores, msg))
  }

  /** `get_result()`: the held snapshot (or None), and the mailbox is emptied. */
  function GetResult(c: Collector): (res: (Collector, Option<Snapshot>))
    ensures res.1 == c.mailbox
    ensures res.0 == c.(mailbox := None)
  {
    (c.(mailbox := None), c.mailbox)
  }

  /** `is_collecting()` */
  function IsCollecting(c: Collector): (b: bool)
    requires Valid(c)
    ensures b <==> c.job.Some?
  {
    c.collecting
  }

  /**
   * `shutdown()`: sets the flag, then waits for the executor. A running pass
   * stops before its next process and its partial snapshot is published, so
   * when `shutdown` returns nothing is running.
   */
  function Shutdown(c: Collector): (c': Collector)
    requires Valid(c)
    ensures Valid(c') && c'.shutdown && !c'.collecting
    ensures c.job.Some? ==> c'.mailbox == Some(c.job.value.acc)
    ensures c.job.None? ==> c' == c.(shutdown := true)
  {
    WorkerFinish(c.(shutdown := true))
  }

  /** The worker handles `procs` one after another. */
  function Feed(c: Collector, procs: seq<ProcInfo>): (c': Collector)
    requires Valid(c)
    ensures Valid(c')
    ensures c'.collecting == c.collecting && c'.shutdown == c.shutdown && c'.mailbox == c.mailbox
    decreases |procs|
  {
    if procs == [] then c else WorkerStep(Feed(c, procs[..|procs| - 1]), procs[|procs| - 1])
  }

  // ---------------------------------------------------------------- properties of one pass

  /** Which processes end up in `all_cores_processes`. */
  function AnywhereFilter(n: nat, filter: string): ProcInfo -> bool {
    p => Matches(p, filter) && !Pinned(p, n)
  }

  /** Which processes end up in the bucket of core `c`. */
  function CoreFilter(n: nat, filter: string, c: nat): ProcInfo -> bool {
    p => Matches(p, filter) && Pinned(p, n) && c in p.affinity.value
  }

  predicate NoDuplicates(s: seq<nat>) {
    forall i, j :: 0 <= i < j < |s| ==> s[i] != s[j]
  }

  /** Every enumerated process's thread count is summed, whether or not the filter keeps it. */
  lemma {:induction false} PassTotalThreads(procs: seq<ProcInfo>, n: nat, filter: string)
    ensures Pass(procs, n, filter).totalThreads == SumNat(Apply(procs, ThreadCount))
    decreases |procs|
  {
    if procs != [] {
      var init := procs[..|procs| - 1];
      var last := procs[|procs| - 1];
      PassTotalThreads(init, n, filter);
      assert procs == init + [last];
      ApplyAppendLast(init, last, ThreadCount);
      assert Apply(procs, ThreadCount)[..|procs| - 1] == Apply(init, ThreadCount);
    }
  }

  /** The process and thread counts do not depend on the filter. */
  lemma PassCountsIgnoreFilter(procs: seq<ProcInfo>, n: nat, f1: string, f2: string)
    ensures Pass(procs, n, f1).procCount == Pass(procs, n, f2).procCount == |procs|
    ensures Pass(procs, n, f1).totalThreads == Pass(procs, n, f2).totalThreads
  {
    PassTotalThreads(procs, n, f1);
    PassTotalThreads(procs, n, f2);
  }

  /**
   * `all_cores_processes` lists, in enumeration order, exactly the kept
   * processes whose affinity is empty, covers every core, or could not be read.
   */
  lemma {:induction false} PassAllCores(procs: seq<ProcInfo>, n: nat, filter: string)
    ensures Pass(procs, n, filter).allCores == Apply(Filter(procs, AnywhereFilter(n, filter)), EntryOf)
    decreases |procs|
  {
    if procs != [] {
      var init := procs[..|procs| - 1];
      var last := procs[|procs| - 1];
      PassAllCores(init, n, filter);
      assert procs == init + [last];
      FilterAppendLast(init, last, AnywhereFilter(n, filter));
      ApplyAppendLast(Filter(init, AnywhereFilter(n, filter)), last, EntryOf);
    }
  }

  /** Membership in a bucket after filing one process under the listed cores. */
  lemma {:induction false} AddToCoresMember(m: map<nat, seq<Entry>>, cores: seq<nat>, n: nat, e: Entry, c: nat, x: Entry)
    requires HasCores(m, n) && c < n
    ensures x in AddToCores(m, cores, n, e)[c] <==> x in m[c] || (c in cores && x == e)
    decreases |cores|
  {
    if cores != [] {
      var init := cores[..|cores| - 1];
      AddToCoresMember(m, init, n, e, c, x);
      assert cores == init + [cores[|cores| - 1]];
    }
  }

  /** With a duplicate-free affinity list, each listed core gets the row exactly once, at the end. */
  lemma {:induction false} AddToCoresAt(m: map<nat, seq<Entry>>, cores: seq<nat>, n: nat, e: Entry, c: nat)
    requires HasCores(m, n) && c < n && NoDuplicates(cores)
    ensures AddToCores(m, cores, n, e)[c] == m[c] + (if c in cores then [e] else [])
    decreases |cores|
  {
    if cores != [] {
      var init := cores[..|cores| - 1];
      var last := cores[|cores| - 1];
      assert cores == init + [last];
      assert NoDuplicates(init);
      AddToCoresAt(m, init, n, e, c);
      if last == c {
        assert c !in init;
      }
    }
  }

  /**
   * A row is in the bucket of core `c` iff some kept process pinned to a strict
   * subset of the cores lists `c` in its affinity.
   */
  lemma {:induction false} PassBucketMembers(procs: seq<ProcInfo>, n: nat, filter: string, c: nat, x: Entry)
    requires c < n
    ensures x in Pass(procs, n, filter).coreProcesses[c] <==>
      exists i :: 0 <= i < |procs| && CoreFilter(n, filter, c)(procs[i]) && x == EntryOf(procs[i])
    decreases |procs|
  {
    if procs != [] {
      var init := procs[..|procs| - 1];
      var last := procs[|procs| - 1];
      PassBucketMembers(init, n, filter, c, x);
      var acc := Pass(init, n, filter);
      if Matches(last, filter) && Pinned(last, n) {
        AddToCoresMember(acc.coreProcesses, last.affinity.value, n, EntryOf(last), c, x);
      }
      assert forall i :: 0 <= i < |init| ==> procs[i] == init[i];
    }
  }

  /**
   * When affinity lists have no repeats (as the OS reports them), the bucket of
   * core `c` lists exactly the kept processes pinned to `c`, in enumeration order.
   */
  /** `x` shows exactly what psutil reported for `p`. */
  predicate CarriesReadings(x: Entry, p: ProcInfo) {
    && x.pid == p.pid && x.cpu == p.cpuPercent.GetOr(0.0) && x.name == p.name.GetOr("")
    && x.mem == p.memPercent.GetOr(0.0) && x.threads == ThreadCount(p)
  }

  /**
   * Every row of a core's bucket carries one enumerated process's own
   * readings: its CPU% (0.0 when the query raised), name, memory%, PID and
   * thread count.
   */
  lemma BucketRowsCarryReadings(procs: seq<ProcInfo>, n: nat, filter: string, c: nat, x: Entry)
    requires c < n && x in Pass(procs, n, filter).coreProcesses[c]
    ensures exists i :: 0 <= i < |procs| && CarriesReadings(x, procs[i])
  {
    PassBucketMembers(procs, n, filter, c, x);
    var i :| 0 <= i < |procs| && CoreFilter(n, filter, c)(procs[i]) && x == EntryOf(procs[i]);
    assert x.cpu == procs[i].cpuPercent.GetOr(0.0);
  }

  lemma {:induction false} PassBucket(procs: seq<ProcInfo>, n: nat, filter: string, c: nat)
    requires c < n
    requires forall i :: 0 <= i < |procs| && procs[i].affinity.Some? ==> NoDuplicates(procs[i].affinity.value)
    ensures Pass(procs, n, filter).coreProcesses[c] == Apply(Filter(procs, CoreFilter(n, filter, c)), EntryOf)
    decreases |procs|
  {
    if procs != [] {
      var init := procs[..|procs| - 1];
      var last := procs[|procs| - 1];
      PassBucket(init, n, filter, c);
      var acc := Pass(init, n, filter);
      if Matches(last, filter) && Pinned(last, n) {
        AddToCoresAt(acc.coreProcesses, last.affinity.value, n, EntryOf(last), c);
      }
      assert procs == init + [last];
      FilterAppendLast(init, last, CoreFilter(n, filter, c));
      ApplyAppendLast(Filter(init, CoreFilter(n, filter, c)), last, EntryOf);
    }
  }

  /** The filter example: "34" matches a process with PID 1234, whatever its name. */
  lemma FilterMatchesPidSubstring()
    ensures Matches(ProcInfo(1234, Some("firefox"), None, None, None, None), "34")
  {
    assert NatToString(1234) == "1234";
    assert SliceAt("1234", 2, "34");
  }

  /** The filter example: "34" does not match "chrome" with PID 5678. */
  lemma {:induction false} FilterRejectsOther()
    ensures !Matches(ProcInfo(5678, Some("chrome"), None, None, None, None), "34")
  {
    assert NatToString(5678) == "5678";
    assert Lower("chrome") == "chrome";
    forall i | 0 <= i <= 4 ensures !SliceAt("chrome", i, "34") {
      assert "chrome"[i] != '3';
    }
    forall i | 0 <= i <= 2 ensures !SliceAt("5678", i, "34") {
      assert "5678"[i] != '3';
    }
  }

  /** The affinity example: pinned to {0,1} of 8 cores files under cores 0 and 1 only. */
  lemma AffinityExample()
    ensures var p := ProcInfo(42, Some("worker"), None, None, Some(5.0), Some([0, 1]));
      var r := Pass([p], 8, "");
      && r.coreProcesses[0] == [EntryOf(p)] && r.coreProcesses[1] == [EntryOf(p)]
      && r.coreProcesses[2] == [] && r.allCores == []
  {
    var p := ProcInfo(42, Some("worker"), None, None, Some(5.0), Some([0, 1]));
    var e := EntryOf(p);
    assert [p][..0] == [];
    var r0 := EmptySnapshot(8);
    assert Pass([p], 8, "") == Step(r0, p, 8, "");
    assert Matches(p, "") && Pinned(p, 8);
    var m := r0.coreProcesses;
    assert 0 in m && 1 in m && 2 in m;
    var m1 := AddToCores(m, [0], 8, e);
    assert [0][..0] == [] && [0, 1][..1] == [0];
    assert m1 == m[0 := m[0] + [e]];
    assert AddToCores(m, [0, 1], 8, e) == m1[1 := m1[1] + [e]];
  }

  /** The affinity example: allowed on all 8 cores files under "all cores" only. */
  lemma AllCoresExample()
    ensures var p := ProcInfo(7, Some("daemon"), None, None, Some(1.0), Some([0, 1, 2, 3, 4, 5, 6, 7]));
      var r := Pass([p], 8, "");
      && r.allCores == [EntryOf(p)]
      && forall c :: c in r.coreProcesses ==> r.coreProcesses[c] == []
  {
    var p := ProcInfo(7, Some("daemon"), None, None, Some(1.0), Some([0, 1, 2, 3, 4, 5, 6, 7]));
    assert [p][..0] == [];
    var r0 := EmptySnapshot(8);
    assert Pass([p], 8, "") == Step(r0, p, 8, "");
    assert !Pinned(p, 8);
  }

  // ---------------------------------------------------------------- properties of the collector

  /**
   * A job accepted by `collect_async` and fed the enumerated processes one by
   * one holds exactly the pass over them; finishing publishes that pass.
   */
  lemma {:induction false} FeedComputesPass(c: Collector, procs: seq<ProcInfo>, n: nat, filter: string)
    requires Valid(c) && !c.shutdown && c.job == Some(Job(n, filter, EmptySnapshot(n)))
    ensures Feed(c, procs).job == Some(Job(n, filter, Pass(procs, n, filter)))
    ensures WorkerFinish(Feed(c, procs)).mailbox == Some(Pass(procs, n, filter))
    decreases |procs|
  {
    if procs != [] {
      FeedComputesPass(c, procs[..|procs| - 1], n, filter);
    }
  }

  /** Once shut down, the worker handles no further process: the state does not change. */
  lemma {:induction false} NothingAfterShutdown(c: Collector, rest: seq<ProcInfo>)
    requires Valid(c)
    ensures Feed(Shutdown(c), rest) == Shutdown(c)
    decreases |rest|
  {
    if rest != [] {
      NothingAfterShutdown(c, rest[..|rest| - 1]);
    }
  }

  /**
   * Shutting down after `k` processes publishes the pass over those `k`
   * only, and no new collection can start afterwards.
   */
  lemma ShutdownMidPass(c: Collector, procs: seq<ProcInfo>, k: nat, n: nat, filter: string, n2: nat, f2: string)
    requires Valid(c) && !c.collecting && !c.shutdown && k <= |procs|
    ensures var running := Feed(CollectAsync(c, n, filter), procs[..k]);
      var stopped := Shutdown(running);
      && stopped.mailbox == Some(Pass(procs[..k], n, filter))
      && Feed(stopped, procs[k..]) == stopped
      && CollectAsync(stopped, n2, f2) == stopped
  {
    FeedComputesPass(CollectAsync(c, n, filter), procs[..k], n, filter);
    NothingAfterShutdown(Feed(CollectAsync(c, n, filter), procs[..k]), procs[k..]);
  }

  /** The mailbox keeps only the newest result, and a read consumes it. */
  lemma NewestResultWins(c: Collector, older: Snapshot, newer: Snapshot)
    ensures var (c1, r1) := GetResult(Complete(Complete(c, older), newer));
      var (_, r2) := GetResult(c1);
      r1 == Some(newer) && r2.None?
  {
  }

  /** `shutdown` is idempotent. */
  lemma ShutdownIdempotent(c: Collector)
    requires Valid(c)
    ensures Shutdown(Shutdown(c)) == Shutdown(c)
  {
  }
}
