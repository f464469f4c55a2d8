# System monitor core, modelled in Dafny

This project models the logic core of a Qt desktop system monitor, a Python
application. The monitor shows:

- CPU, memory, network, disk and GPU cards and charts;
- a per-core CPU grid;
- a process tree grouped by CPU affinity;
- a system-information tab.

The model covers the small sequential rules behind those views. It leaves out
the widgets and the operating-system queries. psutil, NVML, nvidia-smi,
dmidecode, wmic, `/proc/cpuinfo` and `platform` all become inputs: a process
list, counter samples, `Option` results and raw text. Python's `float()` is a
parameter `parse: string -> Option<real>`. The peak decay `exp(-dt / 10)` is
a parameter `alpha`.

Modules, one per source file:

- `Cache` (`application/utils/cache.py`): the `SystemInfoCache` singleton. A
  registry of instance stores. It also holds `cached_static_property`.
- `ProcessCollector` (`application/core/process_collector.py`):
  - one enumeration pass as a left fold over the processes: counting, the
    name/PID filter, affinity buckets and the error result;
  - the collector object as a state record: `collecting`, `shutdown`, a
    single-slot mailbox and the running job;
  - the worker, one process at a time, so that a shutdown can arrive in the
    middle of a pass.
- `ProcessManager` (`application/core/process_manager.py`):
  - priming, draining the mailbox and starting a pass;
  - the tree build as data: a stable sort by CPU%, the top ten per core,
    expansion restore and lazy thread rows;
  - saving the expansion state back from the tree.
- `TimeSeriesChart` (`application/widgets/time_series_chart.py`): the bounded
  point buffers, the sample counter, the x window and auto-scaling.
- `MetricCard` (`application/widgets/metric_card.py`): percentage and value
  updates, bar rounding (Python's round-half-even), the warning colours and
  the dynamic scale.
- `GpuProvider` (`application/providers/gpu_provider.py`): the nvidia-smi line
  parsers, the backend choice, the accessors and one poll-loop round.
- `SystemInfo` (`application/utils/system_info.py`): the cpuinfo, processor,
  wmic and dmidecode parsers, per-core frequencies, and the temperature
  filters. The two memoised getters go through `Cache`.
- `CpuTab` (`application/ui/cpu_tab_builder.py`): the core count, the column
  count and the grid placement.
- `MonitorState`: the window's attributes that these rules read and write,
  grouped into one record per panel.
- `MetricsUpdater` (`application/core/metrics_updater.py`): one tick. It
  covers:
  - rates and decayed peaks;
  - the GPU and process refresh gates;
  - GPU tooltip lines;
  - `update_all_metrics`.
- `EventHandlers` (`application/ui/event_handlers.py`): the unit selectors,
  the interval, pause and the window title, and the search filter.
- `App` (`application/app.py`): the timer tick, the initial metric state, the
  default unit and the close event.
- Support modules: `Wrappers` (`Option`), `Seqs` (filter, map and sums over
  sequences) and `Text` (the Python `str` operations used, on ASCII).

The Windows CPU-name branch tests `len(lines) > 1` and then reads `lines[2]`.
With exactly two lines that raises `IndexError`. The surrounding `except`
catches it and the function falls through to the processor fallback, which is
what it does when the line is blank. `SystemInfo.WmicCpuName` therefore asks
for three lines. The observable result is the same.

## Model

| member | source | states |
|---|---|---|
| Cache.Fresh | application/utils/cache.py:19 | before the first construction there is no singleton |
| Cache.New | application/utils/cache.py:22-29 | construction returns the existing singleton unchanged; without one, it registers a new instance with an empty store as the singleton |
| Cache.Get | application/utils/cache.py:36-39 | the stored value for a present key, None for an absent key |
| Cache.Set | application/utils/cache.py:41-44 | afterwards `get(key)` is the value; every other key of the instance and every other instance is unchanged |
| Cache.GetOrCompute | application/utils/cache.py:46-62 | present key: the stored value, compute not run, nothing changes; absent key: compute runs once, its value is stored and returned |
| Cache.Clear | application/utils/cache.py:64-67 | every key of the instance is gone; other instances are untouched |
| Cache.Reset | application/utils/cache.py:69-73 | the singleton is forgotten; the stores stay |
| Cache.CachedStaticProperty | application/utils/cache.py:76-96 | a decorated call is `get_or_compute` under the fixed key on the singleton, constructing it if needed |
| Cache.NewIsSingleton | application/utils/cache.py:22-29 | two constructions without a reset give the same instance and change nothing the second time |
| Cache.ResetGivesEmptyInstance | application/utils/cache.py:69-73 | after a reset the next construction is a different instance in which every key reads as None |
| Cache.GetOrComputeIsIdempotent | application/utils/cache.py:56-62 | once a key is present, a second `get_or_compute` returns the first value, whatever compute would give, and does not run compute |
| Cache.StoredNoneIsNotRecomputed | application/utils/cache.py:38-39 | a stored None reads like an absent key through `get`, but `get_or_compute` treats it as present and does not recompute |
| Cache.CachedPropertyFirstCallWins | application/utils/cache.py:91-96 | a second decorated call returns the first call's result, does not run, and leaves the registry unchanged |
| ProcessCollector.EntryOf | application/core/process_collector.py:75-84 | the row of a process: its PID, its CPU% (0.0 when the query raised), its name or "", its memory% or 0.0, and its thread count or 0 |
| ProcessCollector.EmptyBuckets | application/core/process_collector.py:64 | the buckets have exactly the keys `0..n-1`, all empty |
| ProcessCollector.EmptySnapshot | application/core/process_collector.py:64-67 | a pass starts with the buckets `0..n-1` and no error |
| ProcessCollector.ErrorSnapshot | application/core/process_collector.py:111-119 | the error result: buckets `0..n-1` all empty, no all-cores entries, both counts 0, and the message |
| ProcessCollector.AddToCores | application/core/process_collector.py:96-98 | adding a pinned row keeps the bucket keys `0..n-1` |
| ProcessCollector.Step | application/core/process_collector.py:74-103 | one process raises `proc_count` by one and `total_threads` by its thread count, before the filter; the keys stay `0..n-1` |
| ProcessCollector.Pass | application/core/process_collector.py:63-110 | a pass counts every enumerated process and keeps the keys `0..n-1` |
| ProcessCollector.NewCollector | application/core/process_collector.py:31-35 | a new collector is idle, not shut down, with an empty mailbox |
| ProcessCollector.CollectAsync | application/core/process_collector.py:44-51 | a no-op while collecting or after shutdown; otherwise sets `collecting` and submits exactly one job with the given core count and filter |
| ProcessCollector.Complete | application/core/process_collector.py:127-141 | completion clears `collecting`, and the mailbox holds exactly the new result; any older result is discarded |
| ProcessCollector.WorkerStep | application/core/process_collector.py:70-72 | the worker handles a process only while not shut down; the flags and the mailbox do not change |
| ProcessCollector.WorkerFinish | application/core/process_collector.py:105-110 | a pass that ends publishes what it gathered and clears `collecting` |
| ProcessCollector.WorkerFail | application/core/process_collector.py:111-119 | a pass that raises publishes the error result for its core count |
| ProcessCollector.GetResult | application/core/process_collector.py:151-154 | returns the held result, or None, and empties the mailbox |
| ProcessCollector.IsCollecting | application/core/process_collector.py:156-159 | true exactly while a submitted job has not completed |
| ProcessCollector.Shutdown | application/core/process_collector.py:161-166 | after shutdown the flag is set and nothing runs; a running pass publishes what it had gathered |
| ProcessCollector.Feed | application/core/process_collector.py:70-103 | the worker handling a run of processes never touches the flags or the mailbox |
| ProcessCollector.PassTotalThreads | application/core/process_collector.py:81-82 | `total_threads` is the sum of every enumerated process's thread count |
| ProcessCollector.PassCountsIgnoreFilter | application/core/process_collector.py:74-89 | neither `proc_count` nor `total_threads` depends on the filter |
| ProcessCollector.PassAllCores | application/core/process_collector.py:92-103 | `all_cores_processes` holds, in order, exactly the matching processes that are not pinned: empty or full affinity, or a failed query |
| ProcessCollector.AddToCoresMember | application/core/process_collector.py:96-98 | a core's bucket gains the row exactly when the core is listed |
| ProcessCollector.AddToCoresAt | application/core/process_collector.py:96-98 | with no repeated cores, the row is added once at the end of each listed core's bucket |
| ProcessCollector.PassBucketMembers | application/core/process_collector.py:92-98 | a row is in core c's bucket iff some matching process pinned to fewer than all cores lists c |
| ProcessCollector.BucketRowsCarryReadings | application/core/process_collector.py:75-98 | every row of a core's bucket shows one enumerated process's own PID, CPU%, name, memory% and thread count |
| ProcessCollector.PassBucket | application/core/process_collector.py:92-98 | with duplicate-free affinities, core c's bucket is exactly the matching pinned processes listing c, in enumeration order |
| ProcessCollector.FilterMatchesPidSubstring | application/core/process_collector.py:87-89 | the filter also matches a substring of the decimal PID |
| ProcessCollector.FilterRejectsOther | application/core/process_collector.py:87-89 | a process is dropped when the filter is in neither its lower-cased name nor its PID |
| ProcessCollector.AffinityExample | application/core/process_collector.py:93-98 | a process pinned to cores 0 and 1 of 8 is in those two buckets only |
| ProcessCollector.AllCoresExample | application/core/process_collector.py:99-101 | a process allowed on all 8 cores goes to the all-cores list and into no bucket |
| ProcessCollector.FeedComputesPass | application/core/process_collector.py:50-110 | a submitted job fed every process publishes exactly the pass over them |
| ProcessCollector.NothingAfterShutdown | application/core/process_collector.py:71-72 | after shutdown, further processes change nothing |
| ProcessCollector.ShutdownMidPass | application/core/process_collector.py:45-46 | a shutdown after k processes publishes the pass over those k; the rest are ignored and no new job can start |
| ProcessCollector.NewestResultWins | application/core/process_collector.py:133-154 | after two completions the read gives the newer result, and a second read gives None |
| ProcessCollector.ShutdownIdempotent | application/core/process_collector.py:161-166 | shutting down twice is shutting down once |
| ProcessManager.Insert | application/core/process_manager.py:171 | inserting a row adds exactly that row to the multiset |
| ProcessManager.InsertSorted | application/core/process_manager.py:171 | inserting into a descending sequence keeps it descending |
| ProcessManager.SortByCpu | application/core/process_manager.py:171 | the sort result is descending by CPU% and a permutation of the bucket |
| ProcessManager.InsertKeepsTies | application/core/process_manager.py:171 | an inserted row goes after every earlier row with the same CPU value |
| ProcessManager.SortIsStable | application/core/process_manager.py:171 | for every CPU value, its rows keep their enumeration order |
| ProcessManager.Top | application/core/process_manager.py:171-183 | the shown rows are the first min(10, n) of the sort, descending and drawn from the bucket |
| ProcessManager.PrefixDominates | application/core/process_manager.py:183 | every row kept by a cut of a descending list is at least as large as every row the cut leaves out |
| ProcessManager.TopShowsLargest | application/core/process_manager.py:171-183 | every shown row's CPU value is at least that of every row left out |
| ProcessManager.ThreadNodes | application/core/process_manager.py:197-201 | at most ten thread rows, one per thread id, in order |
| ProcessManager.ThreadIdsReadBack | application/core/process_manager.py:198-201 | thread row i reads back as the i-th thread id |
| ProcessManager.ProcNodeOf | application/core/process_manager.py:185-207 | a process row shows the entry's name, PID, CPU, memory and thread count and the core number; it is expanded iff its PID was saved under its core, and then, with more than one thread and a successful thread query, holds the first ten thread rows; otherwise it shows the child indicator iff it has more than one thread; the PID column reads back as the PID |
| ProcessManager.CoreNodeOf | application/core/process_manager.py:169-183 | a core row is labelled "CPU Core i", is expanded iff this is the first build or i was saved, its value is the CPU sum of the top ten of the sorted bucket, and its process row k is the row of the k-th of them |
| ProcessManager.PresentPrefix | application/core/process_manager.py:169-170 | the build stops at the first core id missing from the buckets |
| ProcessManager.CoreTotalIsShownSum | application/core/process_manager.py:176 | a core row's CPU value is the sum over the rows shown under it |
| ProcessManager.CoreRowsShowLargest | application/core/process_manager.py:171-183 | the process rows under a core descend by CPU, and no process left out of them uses more CPU than a shown row |
| ProcessManager.BuildTree | application/core/process_manager.py:166-170 | the build completes iff every core `0..n-1` has a bucket; otherwise it stops at the first missing one; node i is core i's row |
| ProcessManager.ExpandedPids | application/core/process_manager.py:152-157 | the saved PIDs are exactly those of the expanded rows whose PID text is all digits |
| ProcessManager.SaveWith | application/core/process_manager.py:137-163 | a core gets a PID set only when it is saved as expanded and the set is non-empty |
| ProcessManager.SaveExpansion | application/core/process_manager.py:137-163 | cores with saved PIDs are among the saved expanded cores |
| ProcessManager.CoreLabelParses | application/core/process_manager.py:146-147 | the integer after the last space of "CPU Core i" is i |
| ProcessManager.ExpandedPidsOfCore | application/core/process_manager.py:193-194 | a rebuilt core's expanded PIDs are exactly the saved PIDs still shown under it |
| ProcessManager.BuildLabelled | application/core/process_manager.py:169-175 | node i of a build is labelled with core id i |
| ProcessManager.SaveLabelledCores | application/core/process_manager.py:142-148 | on a labelled tree, the saved cores are exactly the expanded nodes |
| ProcessManager.SaveLabelledProcs | application/core/process_manager.py:150-159 | on a labelled tree, a core's saved PID set is exactly its expanded PIDs, and it is recorded iff the node is expanded and the set is non-empty |
| ProcessManager.SaveAfterBuild | application/core/process_manager.py:114-128 | saving a complete build gives back exactly the cores it expanded and, per core, the saved PIDs still shown |
| ProcessManager.OnProcItemExpanded | application/core/process_manager.py:42-60 | threads load only into a row with no children and an all-digit PID text; at most ten; a failed query adds nothing |
| ProcessManager.ExpandShowsThreadIds | application/core/process_manager.py:54-58 | after a load, thread row i shows the i-th thread id of that process |
| ProcessManager.Initial | application/core/process_manager.py:26 | at start there is no collector and nothing is primed or built |
| ProcessManager.InitializeCollector | application/core/process_manager.py:28-32 | creates a collector only when there is none |
| ProcessManager.ShutdownCollector | application/core/process_manager.py:34-39 | shuts the collector down and forgets it; a no-op when there is none |
| ProcessManager.UpdateUiWithResult | application/core/process_manager.py:106-131 | saves the expansion, rebuilds for `len(core_processes)` cores (expanding all on the first build), and updates the summary only when the build completes |
| ProcessManager.RefreshProcesses | application/core/process_manager.py:69-96 | the first call only primes; later calls always leave a collector |
| ProcessManager.BucketCount | application/core/process_manager.py:111 | buckets with keys `0..n-1` number n |
| ProcessManager.RefreshDrainsThenStarts | application/core/process_manager.py:84-93 | after priming, a refresh drains the mailbox and rebuilds only on a result; it starts a pass for `cpu_count or 1` cores with the filter only when none is running |
| ProcessManager.CollectorSnapshotBuildsCompletely | application/core/process_manager.py:107-131 | a collector snapshot for n cores builds n labelled core rows and updates the summary |
| ProcessManager.ExpansionSurvivesRebuild | application/core/process_manager.py:119-122 | the first build expands every core, and the next build keeps them all expanded |
| TimeSeriesChart.NewChart | application/widgets/time_series_chart.py:25-71 | empty buffers, one per series; counter 0; x axis `[0, max_points]`; y axis `y_range` or `[0, 100]` |
| TimeSeriesChart.Trim | application/widgets/time_series_chart.py:83-84 | the buffer is cut to its newest `max_points` points |
| TimeSeriesChart.MaxY | application/widgets/time_series_chart.py:92-95 | the largest y of a buffer, or the floor: an upper bound that is attained or equals the floor |
| TimeSeriesChart.Push | application/widgets/time_series_chart.py:81-84 | the point goes at the end and the newest `max_points` are kept; x values still increase and stay within the counter |
| TimeSeriesChart.AppendBuffers | application/widgets/time_series_chart.py:77-85 | only buffers `0..min(len(values), len(series))-1` receive a point; the others are unchanged |
| TimeSeriesChart.Append | application/widgets/time_series_chart.py:76-96 | the counter rises by exactly 1; receiving buffers keep their newest points; others are unchanged; the x window is `[x0, x0 + max_points]` with `x0 = max(0, counter - max_points)`; with auto-scale the y range is `[0, 1.2 × peak]` |
| TimeSeriesChart.PeakYIsMax | application/widgets/time_series_chart.py:89-96 | the auto-scale peak is at least 1.0, bounds every y in every buffer, and is attained unless it is 1.0 |
| TimeSeriesChart.NewPointIsLast | application/widgets/time_series_chart.py:81-82 | after an append, a receiving buffer ends with `(counter, value)` |
| TimeSeriesChart.EmptyAppendOnlyTicks | application/widgets/time_series_chart.py:77-78 | appending no values still advances the counter and changes no buffer |
| TimeSeriesChart.FullBufferStaysFull | application/widgets/time_series_chart.py:83-84 | a full buffer drops its oldest point for the new one |
| MetricCard.NewCard | application/widgets/metric_card.py:33-85 | the dynamic maximum starts at 10, or 100 for a percent card; the bar starts at 0; the sparkline has one series, y range `[0, 100]` or `[0, 1]`, and auto-scales unless the card is a percent card |
| MetricCard.Clamp | application/widgets/metric_card.py:125 | `max(0, min(100, x))` |
| MetricCard.RoundHalfEven | application/widgets/metric_card.py:129 | Python's `round`: within 1/2 of the input, and exact halves go to the even neighbour |
| MetricCard.RoundHalfEvenUnique | application/widgets/metric_card.py:129 | any whole number within 1/2 of x that is even on a tie is Python's `round(x)`: the rounding is fully determined |
| MetricCard.Max | application/widgets/metric_card.py:156-158 | Python's two-argument `max`: at least both arguments and equal to one of them |
| MetricCard.ScaleIsMax | application/widgets/metric_card.py:153-160 | for a non-percent card the scale is `max(ref_max, 1e-6)` with a reference (dyn_max untouched), else `dyn = max(v, 0.98 × dyn_max)` and the scale is `max(dyn, 1e-6)` |
| MetricCard.UpdatePercent | application/widgets/metric_card.py:122-145 | shows the clamped value (0 when `float()` fails); the bar is exactly Python's `round` of it (half to even); red at ≥ 90, orange at ≥ 80, the card colour otherwise; the value is appended to the sparkline |
| MetricCard.Scale | application/widgets/metric_card.py:153-160 | the scale is 100 for percent cards; with a reference it is the reference or the floor 1e-6, and at least both; otherwise `dyn` is `v` or `0.98 × dyn_max` and at least both, and the scale is `dyn` or the floor and at least both |
| MetricCard.UpdateValue | application/widgets/metric_card.py:147-166 | shows the value; the bar is exactly `round(max(0, min(100, v / scale × 100)))`; `dyn_max` changes only in the no-reference non-percent case; the value is appended to the sparkline |
| MetricCard.SetFrequency | application/widgets/metric_card.py:106-112 | the frequency label is visible iff the value is positive, and then shows it; nothing else changes |
| MetricCard.SetUnavailable | application/widgets/metric_card.py:102-104 | shows the message and empties the bar; nothing else changes |
| MetricCard.RoundClampedInRange | application/widgets/metric_card.py:125-129 | the bar of either update is a whole percentage in 0..100 |
| MetricCard.RoundHalfEvenExamples | application/widgets/metric_card.py:129 | 2.5 rounds to 2, 3.5 to 4, 99.6 to 100 and 0.4 to 0 |
| MetricCard.OutOfRangeLooksLikeBound | application/widgets/metric_card.py:124-127 | an out-of-range percentage acts like the nearest bound, and an unparsable one like 0 |
| MetricCard.DynMaxDecays | application/widgets/metric_card.py:156-157 | with no reference and no burst, `dyn_max` shrinks by exactly 0.98 |
| MetricCard.ReferenceScale | application/widgets/metric_card.py:160-164 | a value at or above the reference fills the bar; a non-positive value empties it |
| GpuProvider.Lines | application/providers/gpu_provider.py:84 | `out.strip().splitlines()`: lines without breaks, none exactly when the stripped output is empty |
| GpuProvider.ParseNames | application/providers/gpu_provider.py:73 | the stripped lines of the stripped output that are non-empty, in order |
| GpuProvider.ParseNamesMembers | application/providers/gpu_provider.py:73 | for any output, a name is reported iff it is a non-empty stripped line of it |
| GpuProvider.ParseReadings | application/providers/gpu_provider.py:83-89 | one value per line of the stripped output: the i-th is `float` of the stripped i-th line, or 0.0 when that raises |
| GpuProvider.VramOf | application/providers/gpu_provider.py:101-107 | a non-zero pair comes only from a line whose first two comma fields both parse, and is those two values |
| GpuProvider.ParseVram | application/providers/gpu_provider.py:99-108 | one `(used, total)` pair per line of the stripped output, the i-th read from the i-th line (0 for a field that does not parse) |
| GpuProvider.VramRoundTrip | application/providers/gpu_provider.py:99-108 | rows printed as `used,total` lines, each field parsing to its value, read back as exactly those values |
| GpuProvider.VramRowRead | application/providers/gpu_provider.py:103-107 | one printed `used,total` row reads back as its two values |
| GpuProvider.Init | application/providers/gpu_provider.py:19-64 | the backend is NVML iff it initialises and yields a name; otherwise nvidia-smi iff the tool is found and its name query is non-empty, seeding one zero entry per name; otherwise none |
| GpuProvider.PerHandle | application/providers/gpu_provider.py:130-137 | one NVML reading per handle; a device that raised gives the fallback |
| GpuProvider.GpuNames | application/providers/gpu_provider.py:126-127 | always a copy of the names |
| GpuProvider.GpuUtils | application/providers/gpu_provider.py:129-143 | NVML: one per handle with 0.0 on failure; nvidia-smi: the cached list; none: empty |
| GpuProvider.GpuVramInfo | application/providers/gpu_provider.py:145-161 | NVML: used and total bytes per handle divided by 1024², `(0.0, 0.0)` on failure; nvidia-smi: the cached list; none: empty |
| GpuProvider.GpuFrequencies | application/providers/gpu_provider.py:163-177 | NVML: one clock per handle with 0.0 on failure; nvidia-smi: the cached list; none: empty |
| GpuProvider.KeepUnlessEmpty | application/providers/gpu_provider.py:184-191 | a cached list is replaced only by a non-empty new one |
| GpuProvider.PollOnce | application/providers/gpu_provider.py:181-194 | a round replaces utilisation, VRAM and clocks in that order, each only by a non-empty result; a query that raises keeps that list and every later one |
| GpuProvider.Poll | application/providers/gpu_provider.py:179-195 | rounds never change the backend, the names or the handles; a round whose three queries all come back empty changes nothing |
| GpuProvider.NewestUtilsWin | application/providers/gpu_provider.py:181-186 | rounds are applied oldest first: the newest round whose utilisation query printed something decides the cached utilisation list |
| GpuProvider.QuietRoundsKeepUtils | application/providers/gpu_provider.py:181-186 | rounds whose utilisation query raised or printed nothing keep the cached list |
| GpuProvider.ToolOutputLines | application/providers/gpu_provider.py:84 | the parsers see exactly the clean lines the tool printed |
| GpuProvider.NamesRoundTrip | application/providers/gpu_provider.py:73 | clean names printed one per line parse back to the same names, in order |
| GpuProvider.ReadingsRoundTrip | application/providers/gpu_provider.py:83-89 | numbers printed one per line parse back to the same values, in order |
| GpuProvider.VramLineFields | application/providers/gpu_provider.py:102-107 | a VRAM line reads its first two comma fields, spaces ignored and further fields ignored |
| GpuProvider.VramOneField | application/providers/gpu_provider.py:102-107 | a line with a single field gives `(0.0, 0.0)` |
| GpuProvider.AccessorsPerGpu | application/providers/gpu_provider.py:126-177 | with NVML every accessor has one entry per name; with no backend, none |
| GpuProvider.ToolSeedsZeros | application/providers/gpu_provider.py:54-57 | right after choosing nvidia-smi, the accessors give one zero entry per GPU name |
| GpuProvider.PollOnceKeepsValid | application/providers/gpu_provider.py:184-191 | a poll round never empties a cached list |
| GpuProvider.PollKeepsValid | application/providers/gpu_provider.py:181-195 | any number of rounds keeps the lists non-empty and never changes the backend or the names |
| GpuProvider.SilentRoundKeepsCache | application/providers/gpu_provider.py:184-191 | a round in which every query prints nothing changes nothing |
| SystemInfo.LineVerdict | application/utils/system_info.py:31-34 | a returned cpuinfo model is non-empty and does not start with "x86" |
| SystemInfo.ModelFromCpuinfo | application/utils/system_info.py:29-36 | the cpuinfo scan only ever returns a usable model |
| SystemInfo.FromProcessor | application/utils/system_info.py:69-74 | the processor string when it is not an architecture name, else "<machine> CPU"; never empty, never an architecture name |
| SystemInfo.SpacedNotArch | application/utils/system_info.py:71 | a string with a space is not one of the architecture names |
| SystemInfo.WmicCpuName | application/utils/system_info.py:61-64 | a returned wmic name is the stripped, non-empty third line |
| SystemInfo.OsSpecificName | application/utils/system_info.py:27-66 | only Linux, macOS and Windows have an own source, and it gives a non-empty name |
| SystemInfo.CpuModelName | application/utils/system_info.py:21-76 | the platform's own name when there is one, else the processor fallback, and "Unknown CPU" when the platform calls fail |
| SystemInfo.FirstSpeedLine | application/utils/system_info.py:106-107 | the first line containing both "Speed:" and "MHz" |
| SystemInfo.DmidecodeSpeed | application/utils/system_info.py:105-112 | no speed line gives no value |
| SystemInfo.WmicSpeed | application/utils/system_info.py:125-130 | a speed is given iff the stripped output has a second line that is all digits after stripping; it is never negative |
| SystemInfo.MemoryFrequency | application/utils/system_info.py:93-136 | dmidecode on Linux, wmic on Windows, 0.0 elsewhere, on a failed run, or when nothing is found |
| SystemInfo.PerCoreFrequencies | application/utils/system_info.py:79-89 | exactly the `current` values of the entries that have one, in order; [] on failure or a non-list result |
| SystemInfo.Present | application/utils/system_info.py:86 | the values of the present entries, in order (the filter-then-map reading of the comprehension) |
| SystemInfo.PresentMembers | application/utils/system_info.py:86 | a value is kept iff some entry carries it |
| SystemInfo.GroupTemps | application/utils/system_info.py:149-151 | one reading per entry with a positive temperature, in order, each carrying that entry's temperature and its label, or the group name when the label is empty |
| SystemInfo.FromGroups | application/utils/system_info.py:147-151 | every reading is positive and labelled; the readings are those of each listed group in turn |
| SystemInfo.FromGroupsAppend | application/utils/system_info.py:147-151 | scanning two lists of groups is scanning each and concatenating |
| SystemInfo.FromGroupsOne | application/utils/system_info.py:148-151 | scanning one group gives that group's readings, or none when the group is absent |
| SystemInfo.CpuTemperatures | application/utils/system_info.py:139-155 | exactly the readings of `coretemp`, then `k10temp`, then `cpu_thermal`, then `cpu-thermal`; only positive, labelled readings; [] when the call is missing or raised |
| SystemInfo.GpuTemperatures | application/utils/system_info.py:158-187 | none for no backend; one per NVML handle with 0.0 on failure; one per nvidia-smi line with 0.0 for a bad line |
| SystemInfo.LineVerdictMeaning | application/utils/system_info.py:31-34 | a line gives the model iff it mentions "model name" in any case, has ':', and the stripped text after the first ':' is usable; it ends the scan iff it mentions "model name" without ':' |
| SystemInfo.CpuinfoFirstFound | application/utils/system_info.py:30-34 | the scan returns the first usable model line's value |
| SystemInfo.CpuinfoNothingFound | application/utils/system_info.py:30-36 | a file without a usable model line gives nothing |
| SystemInfo.CpuinfoColonlessLineStops | application/utils/system_info.py:32-36 | a "model name" line without ':' ends the scan with nothing |
| SystemInfo.WmicReadsThirdLine | application/utils/system_info.py:62-64 | wmic's header, blank line and name give the name |
| SystemInfo.WmicReadsSpeed | application/utils/system_info.py:125-130 | wmic's `Speed` header followed by a speed in MHz gives that speed |
| SystemInfo.DmidecodeReadsFirstSpeed | application/utils/system_info.py:106-112 | the first `Speed: <value> MHz` line gives `float(value)`, whatever follows |
| SystemInfo.SpeedOfLine | application/utils/system_info.py:106-112 | a line `<indent>Speed: <value> MHz` is a speed line and gives `float(value)` |
| SystemInfo.FirstSpeedAt | application/utils/system_info.py:106-107 | the scan stops at the first speed line |
| SystemInfo.AllPresentKept | application/utils/system_info.py:86 | when every entry has a value, all are reported in order |
| SystemInfo.OtherGroupsIgnored | application/utils/system_info.py:147-148 | sensor groups other than coretemp, k10temp, cpu_thermal and cpu-thermal never affect the result |
| SystemInfo.CpuTemperaturesExample | application/utils/system_info.py:147-152 | a zero reading is dropped, an unlabelled one takes its group name, and other groups are ignored |
| SystemInfo.GpuTemperaturesPerGpu | application/utils/system_info.py:161-169 | with NVML there is one GPU temperature per GPU name |
| SystemInfo.CpuModelNameComputedOnce | application/utils/system_info.py:20 | the model name is computed once; a later call returns it whatever the machine would now report |
| SystemInfo.MemoryFrequencyComputedOnce | application/utils/system_info.py:92 | the memory frequency is computed once, likewise |
| SystemInfo.CachedCpuModelName | application/utils/system_info.py:20-21 | the decorated call under key `cpu_model_name`: with no cache it computes and returns the name; with the key stored it returns the stored value and changes nothing |
| SystemInfo.CachedMemoryFrequency | application/utils/system_info.py:92-93 | the same under key `memory_frequency` |
| SystemInfo.CpuModelNameAfterReset | application/utils/system_info.py:20 | after a cache reset the model name is computed again |
| CpuTab.CoreCount | application/ui/cpu_tab_builder.py:50 | the logical CPU count, or 1 when it is unknown or 0 |
| CpuTab.ISqrt | application/ui/cpu_tab_builder.py:57 | `int(math.sqrt(n))`: the largest r with r² ≤ n |
| CpuTab.Columns | application/ui/cpu_tab_builder.py:57 | `min(4, max(1, ⌊√n⌋ + 1))`: 4 iff n ≥ 9, otherwise the c with (c−1)² ≤ n < c² |
| CpuTab.ColumnsUnique | application/ui/cpu_tab_builder.py:57 | any count between 1 and 4 meeting that characterisation is the column count |
| CpuTab.Cell | application/ui/cpu_tab_builder.py:69-83 | core i sits at row i div cols, column i mod cols, with palette colour i mod 12 |
| CpuTab.Grid | application/ui/cpu_tab_builder.py:61-84 | exactly one chart per core, in index order, titled `CPU{i}`, with its "-- MHz" label and palette colour i mod 12, each within the column count |
| CpuTab.GridCellsDistinct | application/ui/cpu_tab_builder.py:67-84 | different cores occupy different cells and carry different titles |
| CpuTab.DivUnique | application/ui/cpu_tab_builder.py:83 | `divmod` is unique: a position determines its row and column |
| CpuTab.RowMajorOrder | application/ui/cpu_tab_builder.py:61-84 | core i+1 follows core i in the same row, or starts the next row after the last column |
| MetricsUpdater.Rate | application/core/metrics_updater.py:89-90 | throughput is never negative, is 0 when the counter did not grow, and otherwise is the growth per second in units |
| MetricsUpdater.DecayedPeak | application/core/metrics_updater.py:96-97 | the new peak is the larger of the rate and the decayed old peak |
| MetricsUpdater.Gate | application/core/metrics_updater.py:136-143 | the accumulator grows by dt, or becomes 0.0 when unset; the refresh runs iff it reached `spin / 1000`, and then the accumulator restarts at 0 |
| MetricsUpdater.FeedCharts | application/core/metrics_updater.py:59-61 | the first k per-core charts each receive their core's value; the rest are unchanged |
| MetricsUpdater.ShowFrequencies | application/core/metrics_updater.py:69-71 | the first k frequency labels show their core's frequency; the rest keep theirs |
| MetricsUpdater.CpuCard | application/core/metrics_updater.py:41-50 | the CPU card shows the clamped percentage; its frequency follows psutil only when psutil reports a non-zero one |
| MetricsUpdater.CpuTab | application/core/metrics_updater.py:53-73 | on the CPU tab: the total chart gets the value; core chart i gets core i's value when reported; label i shows core i's frequency when reported |
| MetricsUpdater.UpdateCpu | application/core/metrics_updater.py:38-73 | the card is always updated; the charts and labels only while tab 1 is shown; nothing outside the CPU panel changes |
| MetricsUpdater.UpdateMemory | application/core/metrics_updater.py:75-83 | the card shows the clamped percentage; the chart is appended only while tab 2 is shown |
| MetricsUpdater.UpdateNetwork | application/core/metrics_updater.py:86-103 | the rates from the previous sample; the current sample becomes the previous; each peak is the decayed maximum; each card is scaled by its new peak; the chart is appended only on tab 3 |
| MetricsUpdater.DiskRates | application/core/metrics_updater.py:108-118 | both disk rates are 0 when the counters failed or there is no previous sample, else the two rates |
| MetricsUpdater.UpdateDisk | application/core/metrics_updater.py:106-131 | the new reading, possibly None, becomes the previous; peaks, cards and the tab-4 chart follow the rates |
| MetricsUpdater.GpuLines | application/core/metrics_updater.py:185-216 | one tooltip line per utilisation; the name is `names[i]` or "GPU i"; VRAM only when total > 0; the clock and the temperature only when > 0 |
| MetricsUpdater.GpuCharts | application/core/metrics_updater.py:159-175 | the utilisation chart always; the VRAM chart only with readings; the temperature chart only when one is positive |
| MetricsUpdater.RefreshGpu | application/core/metrics_updater.py:145-182 | a refresh keeps the accumulator and keeps the info label present or absent |
| MetricsUpdater.UpdateGpu | application/core/metrics_updater.py:133-182 | the gate alone when it does not fire; the refresh once, with the accumulator at 0, when it does |
| MetricsUpdater.UpdateProcesses | application/core/metrics_updater.py:221-232 | the gate, then `refresh_processes` exactly once when it fires, with the current filter |
| MetricsUpdater.UpdateAll | application/core/metrics_updater.py:22-36 | every panel ends as its own step leaves it, each step running once; nothing outside the six panels changes |
| MetricsUpdater.MemoryIsLocal | application/core/metrics_updater.py:31-36 | the memory panel after a tick depends only on that panel, the current tab and the sample, not on the other panels |
| MetricsUpdater.NetworkIsLocal | application/core/metrics_updater.py:31-36 | the network panel after a tick depends only on that panel, the current tab, the unit scale and the counters |
| MetricsUpdater.DiskIsLocal | application/core/metrics_updater.py:31-36 | the disk panel after a tick depends only on that panel, the current tab, the unit scale and the reading |
| MetricsUpdater.GpuIsLocal | application/core/metrics_updater.py:31-36 | the GPU panel after a tick depends only on that panel, the provider, the current tab and the GPU interval |
| MetricsUpdater.ProcessesIsLocal | application/core/metrics_updater.py:31-36 | the process panel after a tick depends only on that panel and the process interval |
| MetricsUpdater.DecayBounds | application/core/metrics_updater.py:94-96 | decaying by a factor in (0, 1] keeps a non-negative value within `[0, v]` |
| MetricsUpdater.QuietPeakDecays | application/core/metrics_updater.py:94-97 | with no traffic, after n ticks the peak is exactly αⁿ times its start |
| MetricsUpdater.QuietPeakShrinks | application/core/metrics_updater.py:94-97 | with no traffic the peak never grows and never goes negative |
| MetricsUpdater.PeakAboveRate | application/core/metrics_updater.py:96-97 | the peak is never below an earlier rate decayed by the ticks since |
| MetricsUpdater.PeakAboveStart | application/core/metrics_updater.py:96-97 | the peak is never below the starting peak decayed by every tick |
| MetricsUpdater.PeakAttained | application/core/metrics_updater.py:96-97 | the peak is one of those decayed values |
| MetricsUpdater.QuietUntilDue | application/core/metrics_updater.py:136-143 | while below the interval, the gate never fires and the accumulator is the start plus n × dt |
| MetricsUpdater.FiresWhenDue | application/core/metrics_updater.py:141-143 | the gate fires exactly once, on the tick that reaches the interval, and restarts at 0 |
| MetricsUpdater.MeanBetween | application/core/metrics_updater.py:147 | the mean lies between any lower and upper bound of the utilisations |
| MetricsUpdater.GpuRefreshShowsMean | application/core/metrics_updater.py:145-178 | a refresh with utilisations shows their mean and writes one tooltip line per GPU, mirrored in the info label; it touches the charts only on tab 5 |
| MetricsUpdater.GpuRefreshWithoutData | application/core/metrics_updater.py:179-182 | a refresh without utilisations shows "N/A", empties the bar and sets "No GPU data available"; charts and tooltip are untouched |
| MetricsUpdater.NetBurstFillsBar | application/core/metrics_updater.py:96-99 | a burst at or above the decayed peak becomes the new peak and fills the card's bar |
| MetricsUpdater.DiskFailureResetsBaseline | application/core/metrics_updater.py:108-119 | a failed disk reading clears the baseline: that tick and the next report 0, and the one after measures from the next reading |
| EventHandlers.UnitBytes | application/ui/event_handlers.py:21-23 | only "MB/s" and "MiB/s" are known, each with a positive scale |
| EventHandlers.OnUnitChanged | application/ui/event_handlers.py:19-45 | an unknown mode changes nothing; a known one sets the unit, 1,000,000 or 1,048,576 bytes per unit, both selectors, the four card units and both chart titles, and resets the four peaks to 1.0 |
| EventHandlers.OnIntervalChanged | application/ui/event_handlers.py:48-54 | the interval becomes `max(1, val)`; the timer and the title follow only when it changed; otherwise nothing changes |
| EventHandlers.TogglePause | application/ui/event_handlers.py:57-66 | flips the pause state; the button offers the other action and the title follows |
| EventHandlers.NormalizeFilter | application/ui/event_handlers.py:77 | the stored filter is `text.strip()` lower-cased character by character: no upper-case letters and no whitespace at its ends |
| EventHandlers.LowerKeepsEnds | application/ui/event_handlers.py:77 | lower-casing a stripped text keeps it stripped |
| EventHandlers.OnProcSearchChanged | application/ui/event_handlers.py:75-79 | stores the normalised filter, and refreshes the process tree with it only when not paused |
| EventHandlers.UnitSelectionLastWins | application/ui/event_handlers.py:19-45 | selecting a unit twice is selecting it once, and a later valid selection overrides |
| EventHandlers.UnitScaleMatchesMode | application/ui/event_handlers.py:21-25 | the scale always matches the selected unit's table entry |
| EventHandlers.WindowTitleInjective | application/ui/event_handlers.py:69-72 | different intervals or pause states give different titles |
| EventHandlers.ToggleTwiceRestores | application/ui/event_handlers.py:57-66 | toggling keeps the window consistent, and two toggles restore it exactly |
| EventHandlers.IntervalChangeConsistent | application/ui/event_handlers.py:50-54 | an interval change keeps title, timer and interval consistent, is idempotent, and the change check does not alter the outcome |
| EventHandlers.NormalizeFilterIdempotent | application/ui/event_handlers.py:77 | normalising a normalised filter changes nothing |
| EventHandlers.NormalizeFilterFixpoints | application/ui/event_handlers.py:77 | a text is left unchanged iff it has no upper-case letters and no whitespace at its ends |
| EventHandlers.WindowTitle | application/ui/event_handlers.py:69-72 | `System Monitor (<ms> ms)` followed by ` [PAUSED]` exactly when paused |
| EventHandlers.NetTitle | application/ui/event_handlers.py:40 | `Network Throughput (<mode>)` |
| EventHandlers.DiskTitle | application/ui/event_handlers.py:41 | `Disk Throughput (<mode>)` |
| EventHandlers.PausedSearchDoesNotRefresh | application/ui/event_handlers.py:77-79 | while paused a search only records its filter |
| App.Elapsed | application/app.py:135-136 | dt = `max(1, elapsed_ms) / 1000`, so at least 0.001 s |
| App.OnTimer | application/app.py:130-137 | a paused tick only restarts the clock; otherwise the clock restarts and every metric is updated once with the elapsed dt |
| App.InitMetricsState | application/app.py:88-99 | the first samples become the previous ones, the clock starts, the four peaks are 1.0 and the GPU accumulator is 0.0 |
| App.InitProcessState | application/ui/process_tab_builder.py:62-66 | the search filter is empty, the process accumulator is 0.0 and priming is cleared; collector, tree and every other panel are kept |
| App.FirstProcessTickCounts | application/ui/process_tab_builder.py:64-65 | after that initialisation the first tick leaves exactly its own length accumulated, or refreshes when that alone reaches the interval |
| App.WireUnitSelectors | application/app.py:80-86 | the default unit is "MiB/s" with 1024² bytes per unit, applied to selectors, cards and titles, with the peaks at 1.0 |
| App.CloseEvent | application/app.py:139-142 | closing shuts the process collector down and forgets it; nothing else changes |
| App.WiringIsUnitChange | application/app.py:84-86 | setting the unit before calling the handler is redundant |
| App.PausedTimeNotCounted | application/app.py:132-136 | time spent paused is not counted in the next unpaused tick's dt |
| App.CloseIdempotent | application/app.py:141 | closing twice is closing once |
| App.QuietFirstTick | application/app.py:88-99 | right after start, unchanged network counters show 0 throughput and the peaks decay from 1 to α |

## Left out

- psutil, NVML, `subprocess` (nvidia-smi, wmic, sysctl, dmidecode), `/proc/cpuinfo` and `platform` are not called. Their answers are inputs: `ProcInfo` records, `Sample`, `GpuDevices`, `ToolRun` and raw text.
- Threads, locks, `ThreadPoolExecutor`, `Queue` and the daemon poll thread are not modelled as concurrency. The collector, its worker and the poll loop are sequential state transitions. `time.sleep` and the poll interval are left out.
- `math.exp` is not available. `alpha` stands for `exp(-dt / 10)`, and the lemmas that need it assume it lies in (0, 1].
- Python's `float()` on text is the parameter `parse`. Float formatting in labels and tooltips (`:.0f`, `:.1f`, `:,`) is left out. Tooltip and info lines are structured records rather than text.
- Python floats are modelled as exact reals. NaN and ±infinity cannot be expressed, and `parse` yields a real or nothing. In Python, `update_percent(float('nan'))` shows 100.0, because `min(100.0, nan)` is 100.0 (application/widgets/metric_card.py:125). The model has no such input; unparsable text gives 0.
- IEEE-754 rounding is not modelled. Rates, means, EMA steps, the 0.98 decay and the unit conversions are exact real arithmetic, so their contracts hold for the exact values rather than for the rounded doubles Python computes.
- Strings are ASCII: `lower`, `strip`, `isdigit`, `split` and `splitlines` are modelled on ASCII characters only.
- `CpuTab.ISqrt` computes `int(math.sqrt(n))` exactly, without floating-point rounding.
- The Qt widgets and their styling are not modelled: `QTreeWidgetItem`, `QChart`, `QLabel`, signals, tooltips, `blockSignals`, the series colour objects. The tree and the panels are plain data.
- `QElapsedTimer` is the millisecond reading `now` passed to each tick. `QTimer` is the `timerMs` field.
- The `cpu_percent` priming loops are left out: the one in `refresh_processes` and the one in `_init_metrics_state`. Only the `primed` flag and its early return are modelled.
- The asyncio task count on the summary label is left out, because it reads the running event loop.
- `MetricCard.set_model` and `set_tooltip` are left out. Both only set label text.
- In `get_cpu_model_name`, the macOS and Windows branches are modelled as the parsing of the tool's output only. The tool's run is an input.
- `get_gpu_temperatures` is called twice per GPU refresh. The model takes one answer per tick for both calls.
- `EventHandlers.on_proc_item_expanded` only delegates; it is modelled once, as `ProcessManager.OnProcItemExpanded`.
- `ProcessManager.SaveExpansion` works on the model's own tree. Tree items that are not core rows, or labels that do not end in an integer, are not modelled. The build only ever produces "CPU Core i" labels.
- `application/core/metrics_collector.py` and `application/core/info_manager.py` are not part of this model. One is a thread-pool wrapper over psutil; the other formats a platform dump.
- Window construction (`SystemMonitor.__init__`, `_setup_ui`, `_setup_timer`, `_setup_shortcuts`) and the other tab builders are not part of this model. This includes the dashboard, toolbar, GPU tab, process tab, basic tabs, chart factory and theme. Of the process tab builder only `_init_process_state` is modelled, as `App.InitProcessState`. The `_expanded_items` map it creates is never read and is left out.
- ProcessManager.ProcNodeOf: the model builds the row without Qt's signals. In Qt, `setExpanded(True)` on a new, childless row emits `itemExpanded`, which is connected to `on_proc_item_expanded` (application/ui/process_tab_builder.py:57). That handler loads up to ten thread rows first, even when the process has one thread, and lines 195-201 then add up to ten more. The model's restored rows hold only the second batch, and nothing when the thread count is at most one.
- MetricsUpdater.RefreshGpu: its own contract states only that the accumulator and the info label's presence are kept. What a refresh shows is stated by MetricsUpdater.GpuRefreshShowsMean and MetricsUpdater.GpuRefreshWithoutData.
- ProcessManager.RefreshProcesses: its own contract states only priming and that a collector exists afterwards. The drain-then-start behaviour is stated by ProcessManager.RefreshDrainsThenStarts.
