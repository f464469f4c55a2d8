/**
 * One tick of metric updates (`MetricsUpdater`): the CPU and memory cards,
 * network and disk throughput with decayed reference peaks, the GPU card,
 * charts and tooltips behind their refresh gate, and the process table
 * behind its own gate. psutil's readings for the tick arrive as a `Sample`;
 * `alpha` stands for `exp(-dt / 10)`.
 */
module MetricsUpdater {
  import opened Wrappers
  import opened Seqs
  import opened Text
  import MetricCard
  import TimeSeriesChart
  import GpuProvider
  import SystemInfo
  import ProcessManager
  import opened MonitorState

  /** What the NVML handles and the nvidia-smi temperature query answer during this tick. */
  datatype GpuDevices = GpuDevices(
    util: nat -> Option<real>,         // utilisation of handle i
    mem: nat -> Option<(nat, nat)>,    // used and total memory bytes of handle i
    clock: nat -> Option<real>,        // graphics clock of handle i
    temp: nat -> Option<real>,         // temperature of handle i
    smiTemps: Option<string>,          // output of the nvidia-smi temperature query
    parse: string -> Option<real>      // Python's `float()`
  )

  /** psutil's answers for one tick. */
  datatype Sample = Sample(
    cpuPercent: real,                          // `cpu_percent(interval=None)`
    cpuFreq: Option<real>,                     // `cpu_freq().current`; None when the call raised or gave None
    perCore: Option<seq<real>>,                // `cpu_percent(percpu=True)`; None when it raised or gave no list
    coreFreqReply: Option<seq<Option<real>>>,  // the reply behind `get_per_core_frequencies()`
    memPercent: real,                          // `virtual_memory().percent`
    net: NetCounters,
    disk: Option<DiskCounters>,                // None when `disk_io_counters()` raised or gave None
    cpuCount: Option<nat>,                     // `cpu_count()`
    threadsOf: nat -> Option<seq<nat>>,        // thread ids of a process, for expanded rows
    devices: GpuDevices
  )

  // ---------------------------------------------------------------- rates and peaks

  /** `max(0.0, (cur - prev) / dt) / bytes_per_unit`: units per second, never negative. */
  function Rate(cur: nat, prev: nat, dt: real, bytesPerUnit: nat): (r: real)
    requires dt > 0.0 && bytesPerUnit > 0
    ensures r >= 0.0
    ensures cur <= prev ==> r == 0.0
    ensures cur >= prev ==> r * dt * (bytesPerUnit as real) == (cur - prev) as real
  {
    var perSecond := (cur - prev) as real / dt;
    var r := (if perSecond > 0.0 then perSecond else 0.0) / bytesPerUnit as real;
    assert cur >= prev ==> r * (bytesPerUnit as real) == perSecond;
    r
  }

  /** `max(rate, peak * alpha)`. */
  function DecayedPeak(rate: real, peak: real, alpha: real): (p: real)
    ensures p >= rate && p >= alpha * peak
    ensures p == rate || p == alpha * peak
  {
    if rate >= peak * alpha then rate else peak * alpha
  }

  /** `alpha^k * v`: the value `v` after `k` decays by `alpha`. */
  function Decay(v: real, alpha: real, k: nat): real {
    if k == 0 then v else alpha * Decay(v, alpha, k - 1)
  }

  /** The reference peak after one tick per rate in `rates`, oldest first. */
  function PeakAfter(peak: real, rates: seq<real>, alpha: real): real
    decreases |rates|
  {
    if rates == [] then peak
    else DecayedPeak(rates[|rates| - 1], PeakAfter(peak, rates[..|rates| - 1], alpha), alpha)
  }

  // ---------------------------------------------------------------- refresh gates

  /**
   * The refresh gate of `_update_gpu` and `_update_processes`: the
   * accumulator grows by `dt` (an unset one becomes 0.0 instead); the refresh
   * runs iff it reached `spin / 1000` seconds, and then the accumulator
   * restarts at 0.0. Returns whether the refresh runs and the new accumulator.
   */
  function Gate(accum: Option<real>, dt: real, spinMs: int): (res: (bool, real))
    ensures var grown := if accum.Some? then accum.value + dt else 0.0;
      && (res.0 <==> grown >= spinMs as real / 1000.0)
      && res.1 == (if res.0 then 0.0 else grown)
  {
    var grown := if accum.Some? then accum.value + dt else 0.0;
    if grown >= spinMs as real / 1000.0 then (true, 0.0) else (false, grown)
  }

  /** Runs the gate for `n` ticks of `dt` from the accumulator `a`: how often it fired and where it ends. */
  function GateRun(a: real, dt: real, spinMs: int, n: nat): (nat, real)
    decreases n
  {
    if n == 0 then (0, a)
    else
      var (fired, acc) := GateRun(a, dt, spinMs, n - 1);
      var (fires, acc') := Gate(Some(acc), dt, spinMs);
      (if fires then fired + 1 else fired, acc')
  }

  // ---------------------------------------------------------------- CPU and memory

  /** `for i, val in enumerate(values[:len(charts)]): charts[i].append([val])`, for the first `k` charts. */
  function FeedCharts(charts: seq<TimeSeriesChart.Chart>, values: seq<real>, k: nat): (r: seq<TimeSeriesChart.Chart>)
    requires ChartsValid(charts) && k <= |charts| && k <= |values|
    ensures ChartsValid(r) && |r| == |charts|
    ensures forall i :: 0 <= i < k ==> r[i] == TimeSeriesChart.Append(charts[i], [values[i]])
    ensures forall i :: k <= i < |charts| ==> r[i] == charts[i]
    decreases k
  {
    if k == 0 then charts
    else
      var r0 := FeedCharts(charts, values, k - 1);
      r0[k - 1 := TimeSeriesChart.Append(r0[k - 1], [values[k - 1]])]
  }

  /** The per-core frequency labels after showing `freqs[:len(labels)]`, for the first `k` labels. */
  function ShowFrequencies(labels: seq<Option<real>>, freqs: seq<real>, k: nat): (r: seq<Option<real>>)
    requires k <= |labels| && k <= |freqs|
    ensures |r| == |labels|
    ensures forall i :: 0 <= i < k ==> r[i] == Some(freqs[i])
    ensures forall i :: k <= i < |labels| ==> r[i] == labels[i]
    decreases k
  {
    if k == 0 then labels
    else ShowFrequencies(labels, freqs, k - 1)[k - 1 := Some(freqs[k - 1])]
  }

  function Min(a: nat, b: nat): nat { if a <= b then a else b }

  /** The CPU card: the percentage, then the frequency when psutil reported a non-zero one. */
  function CpuCard(card: MetricCard.Card, s: Sample): (c: MetricCard.Card)
    requires MetricCard.Valid(card)
    ensures MetricCard.Valid(c)
    ensures c.display == MetricCard.Percent(MetricCard.Clamp(s.cpuPercent))
    ensures s.cpuFreq.Some? && s.cpuFreq.value != 0.0 ==>
      (c.freqVisible <==> s.cpuFreq.value > 0.0) && (s.cpuFreq.value > 0.0 ==> c.freqMhz == s.cpuFreq.value)
    ensures !(s.cpuFreq.Some? && s.cpuFreq.value != 0.0) ==>
      c.freqVisible == card.freqVisible && c.freqMhz == card.freqMhz
  {
    var c := MetricCard.UpdatePercent(card, Some(s.cpuPercent));
    if s.cpuFreq.Some? && s.cpuFreq.value != 0.0 then MetricCard.SetFrequency(c, s.cpuFreq.value) else c
  }

  /** The CPU tab (index 1): the total chart, the per-core charts and the per-core frequency labels. */
  function CpuTab(p: CpuPanel, s: Sample): (p': CpuPanel)
    requires CpuValid(p)
    ensures CpuValid(p') && p'.card == p.card
    ensures p'.chart == TimeSeriesChart.Append(p.chart, [s.cpuPercent])
    ensures |p'.coreCharts| == |p.coreCharts| && |p'.coreFreqLabels| == |p.coreFreqLabels|
    ensures forall i :: 0 <= i < |p.coreCharts| ==>
      if s.perCore.Some? && i < |s.perCore.value| then
        p'.coreCharts[i] == TimeSeriesChart.Append(p.coreCharts[i], [s.perCore.value[i]])
      else p'.coreCharts[i] == p.coreCharts[i]
    ensures var freqs := SystemInfo.PerCoreFrequencies(s.coreFreqReply);
      forall i :: 0 <= i < |p.coreFreqLabels| ==>
        p'.coreFreqLabels[i] == (if i < |freqs| then Some(freqs[i]) else p.coreFreqLabels[i])
  {
    var charts := match s.perCore
      case None => p.coreCharts
      case Some(cores) =>
        if cores == [] then p.coreCharts else FeedCharts(p.coreCharts, cores, Min(|cores|, |p.coreCharts|));
    var freqs := SystemInfo.PerCoreFrequencies(s.coreFreqReply);
    var labels :=
      if p.coreFreqLabels != [] && freqs != [] then
        ShowFrequencies(p.coreFreqLabels, freqs, Min(|freqs|, |p.coreFreqLabels|))
      else p.coreFreqLabels;
    p.(chart := TimeSeriesChart.Append(p.chart, [s.cpuPercent]), coreCharts := charts, coreFreqLabels := labels)
  }

  /** `_update_cpu`: the card always; the charts and labels only while the CPU tab is shown. */
  function UpdateCpu(m: Monitor, s: Sample): (m': Monitor)
    requires Valid(m)
    ensures Valid(m') && m' == m.(cpu := m'.cpu)
    ensures m'.cpu.card == CpuCard(m.cpu.card, s)
    ensures m.currentTab == 1 ==> m'.cpu == CpuTab(m.cpu, s).(card := m'.cpu.card)
    ensures m.currentTab != 1 ==> m'.cpu == m.cpu.(card := m'.cpu.card)
  {
    var p := if m.currentTab == 1 then CpuTab(m.cpu, s) else m.cpu;
    m.(cpu := p.(card := CpuCard(m.cpu.card, s)))
  }

  /** `_update_memory`: the card, and the chart while the memory tab (index 2) is shown. */
  function UpdateMemory(m: Monitor, s: Sample): (m': Monitor)
    requires Valid(m)
    ensures Valid(m') && m' == m.(mem := m'.mem)
    ensures m'.mem.card.display == MetricCard.Percent(MetricCard.Clamp(s.memPercent))
    ensures m'.mem.card == MetricCard.UpdatePercent(m.mem.card, Some(s.memPercent))
    ensures m'.mem.chart == if m.currentTab == 2 then TimeSeriesChart.Append(m.mem.chart, [s.memPercent]) else m.mem.chart
  {
    var card := MetricCard.UpdatePercent(m.mem.card, Some(s.memPercent));
    m.(mem := MemPanel(card,
                       if m.currentTab == 2 then TimeSeriesChart.Append(m.mem.chart, [s.memPercent]) else m.mem.chart))
  }

  // ---------------------------------------------------------------- network and disk

  /**
   * `_update_network`: the upload and download rates against the previous
   * sample, which the current one then replaces; each peak decays by `alpha`
   * unless the new rate is above it; each card is scaled by its peak; the
   * chart gets both rates while the network tab (index 3) is shown.
   */
  function UpdateNetwork(m: Monitor, dt: real, net: NetCounters, alpha: real): (m': Monitor)
    requires Valid(m) && dt > 0.0
    ensures Valid(m') && m' == m.(net := m'.net)
    ensures var up := Rate(net.bytesSent, m.net.last.bytesSent, dt, m.bytesPerUnit);
      var down := Rate(net.bytesRecv, m.net.last.bytesRecv, dt, m.bytesPerUnit);
      && m'.net.last == net
      && m'.net.peakUp == DecayedPeak(up, m.net.peakUp, alpha)
      && m'.net.peakDown == DecayedPeak(down, m.net.peakDown, alpha)
      && m'.net.cardUp == MetricCard.UpdateValue(m.net.cardUp, Some(up), Some(m'.net.peakUp))
      && m'.net.cardDown == MetricCard.UpdateValue(m.net.cardDown, Some(down), Some(m'.net.peakDown))
      && m'.net.chart == (if m.currentTab == 3 then TimeSeriesChart.Append(m.net.chart, [up, down]) else m.net.chart)
      && m'.net.chartTitle == m.net.chartTitle
  {
    var up := Rate(net.bytesSent, m.net.last.bytesSent, dt, m.bytesPerUnit);
    var down := Rate(net.bytesRecv, m.net.last.bytesRecv, dt, m.bytesPerUnit);
    var peakUp := DecayedPeak(up, m.net.peakUp, alpha);
    var peakDown := DecayedPeak(down, m.net.peakDown, alpha);
    m.(net := m.net.(last := net, peakUp := peakUp, peakDown := peakDown,
       cardUp := MetricCard.UpdateValue(m.net.cardUp, Some(up), Some(peakUp)),
       cardDown := MetricCard.UpdateValue(m.net.cardDown, Some(down), Some(peakDown)),
       chart := if m.currentTab == 3 then TimeSeriesChart.Append(m.net.chart, [up, down]) else m.net.chart))
  }

  /** The disk read and write rates: zero unless both this reading and a previous one exist. */
  function DiskRates(dio: Option<DiskCounters>, last: Option<DiskCounters>, dt: real, bytesPerUnit: nat): (r: (real, real))
    requires dt > 0.0 && bytesPerUnit > 0
    ensures r.0 >= 0.0 && r.1 >= 0.0
    ensures dio.None? || last.None? ==> r == (0.0, 0.0)
    ensures dio.Some? && last.Some? ==>
      r == (Rate(dio.value.readBytes, last.value.readBytes, dt, bytesPerUnit),
            Rate(dio.value.writeBytes, last.value.writeBytes, dt, bytesPerUnit))
  {
    if dio.Some? && last.Some? then
      (Rate(dio.value.readBytes, last.value.readBytes, dt, bytesPerUnit),
       Rate(dio.value.writeBytes, last.value.writeBytes, dt, bytesPerUnit))
    else (0.0, 0.0)
  }

  /**
   * `_update_disk`: as the network update, except that a failed reading or a
   * missing previous one gives zero rates; the reading, even a failed one,
   * becomes the previous sample.
   */
  function UpdateDisk(m: Monitor, dt: real, dio: Option<DiskCounters>, alpha: real): (m': Monitor)
    requires Valid(m) && dt > 0.0
    ensures Valid(m') && m' == m.(disk := m'.disk)
    ensures var (rd, wr) := DiskRates(dio, m.disk.last, dt, m.bytesPerUnit);
      && m'.disk.last == dio
      && m'.disk.peakRead == DecayedPeak(rd, m.disk.peakRead, alpha)
      && m'.disk.peakWrite == DecayedPeak(wr, m.disk.peakWrite, alpha)
      && m'.disk.cardRead == MetricCard.UpdateValue(m.disk.cardRead, Some(rd), Some(m'.disk.peakRead))
      && m'.disk.cardWrite == MetricCard.UpdateValue(m.disk.cardWrite, Some(wr), Some(m'.disk.peakWrite))
      && m'.disk.chart == (if m.currentTab == 4 then TimeSeriesChart.Append(m.disk.chart, [rd, wr]) else m.disk.chart)
      && m'.disk.chartTitle == m.disk.chartTitle
  {
    var (rd, wr) := DiskRates(dio, m.disk.last, dt, m.bytesPerUnit);
    var peakRead := DecayedPeak(rd, m.disk.peakRead, alpha);
    var peakWrite := DecayedPeak(wr, m.disk.peakWrite, alpha);
    m.(disk := m.disk.(last := dio, peakRead := peakRead, peakWrite := peakWrite,
       cardRead := MetricCard.UpdateValue(m.disk.cardRead, Some(rd), Some(peakRead)),
       cardWrite := MetricCard.UpdateValue(m.disk.cardWrite, Some(wr), Some(peakWrite)),
       chart := if m.currentTab == 4 then TimeSeriesChart.Append(m.disk.chart, [rd, wr]) else m.disk.chart))
  }

  // ---------------------------------------------------------------- GPU

  /** `sum(utils) / len(utils)`. */
  function Mean(utils: seq<real>): real
    requires utils != []
  {
    SumReal(utils) / |utils| as real
  }

  /** `any(t > 0 for t in temps)`. */
  predicate AnyPositive(temps: seq<real>) {
    exists i :: 0 <= i < |temps| && temps[i] > 0.0
  }

  /** `names[i]`, or `"GPU i"` when there are fewer names. */
  function GpuName(names: seq<string>, i: nat): string {
    if i < |names| then names[i] else "GPU " + NatToString(i)
  }

  /** The details of GPU `i` with utilisation `u`. */
  function LineFor(i: nat, names: seq<string>, u: real, vram: seq<GpuProvider.Vram>, freqs: seq<real>,
                   temps: seq<real>): GpuLine
  {
    GpuLine(i, GpuName(names, i), u,
            if i < |vram| && vram[i].total > 0.0 then Some(vram[i]) else None,
            if i < |freqs| && freqs[i] > 0.0 then Some(freqs[i]) else None,
            if i < |temps| && temps[i] > 0.0 then Some(temps[i]) else None)
  }

  /** `_update_gpu_tooltips`' loop over `enumerate(utils)`: one line per utilisation. */
  function GpuLines(names: seq<string>, utils: seq<real>, vram: seq<GpuProvider.Vram>, freqs: seq<real>,
                    temps: seq<real>): (r: seq<GpuLine>)
    ensures |r| == |utils|
    ensures forall i :: 0 <= i < |r| ==>
      && r[i].index == i && r[i].util == utils[i]
      && r[i].name == (if i < |names| then names[i] else "GPU " + NatToString(i))
      && (r[i].vram.Some? <==> i < |vram| && vram[i].total > 0.0)
      && (r[i].vram.Some? ==> r[i].vram.value == vram[i])
      && (r[i].clock.Some? <==> i < |freqs| && freqs[i] > 0.0)
      && (r[i].clock.Some? ==> r[i].clock.value == freqs[i])
      && (r[i].temp.Some? <==> i < |temps| && temps[i] > 0.0)
      && (r[i].temp.Some? ==> r[i].temp.value == temps[i])
    decreases |utils|
  {
    if utils == [] then []
    else
      var n := |utils| - 1;
      GpuLines(names, utils[..n], vram, freqs, temps) + [LineFor(n, names, utils[n], vram, freqs, temps)]
  }

  function UsedOf(v: GpuProvider.Vram): real { v.used }

  /**
   * The GPU tab's charts (index 5, GPU chart present): utilisations always;
   * used VRAM when there is any reading; temperatures when one is positive.
   */
  function GpuCharts(p: GpuPanel, utils: seq<real>, vram: seq<GpuProvider.Vram>, temps: seq<real>): (p': GpuPanel)
    requires GpuValid(p) && p.chart.Some?
    ensures GpuValid(p')
    ensures p' == p.(chart := p'.chart, vramChart := p'.vramChart, tempChart := p'.tempChart)
    ensures p'.chart == Some(TimeSeriesChart.Append(p.chart.value, utils))
    ensures p'.vramChart ==
      if p.vramChart.Some? && vram != [] then Some(TimeSeriesChart.Append(p.vramChart.value, Apply(vram, UsedOf)))
      else p.vramChart
    ensures p'.tempChart ==
      if p.tempChart.Some? && AnyPositive(temps) then Some(TimeSeriesChart.Append(p.tempChart.value, temps))
      else p.tempChart
  {
    var used := if vram != [] then Apply(vram, UsedOf) else [];
    p.(chart := Some(TimeSeriesChart.Append(p.chart.value, utils)),
       vramChart := if p.vramChart.Some? && used != [] then Some(TimeSeriesChart.Append(p.vramChart.value, used))
                    else p.vramChart,
       tempChart := if p.tempChart.Some? && temps != [] && AnyPositive(temps)
                    then Some(TimeSeriesChart.Append(p.tempChart.value, temps))
                    else p.tempChart)
  }

  /**
   * The body of `_update_gpu` once the gate fired: with utilisations, their
   * mean on the card, the first clock when positive, the GPU charts while
   * the GPU tab (index 5) is shown, and the tooltip and info lines; without
   * any, "N/A" and "No GPU data available".
   */
  function RefreshGpu(p: GpuPanel, gpu: GpuProvider.Provider, tab: int, d: GpuDevices): (p': GpuPanel)
    requires GpuValid(p)
    ensures GpuValid(p') && p'.accum == p.accum
    ensures p'.info.Some? <==> p.info.Some?
  {
    var utils := GpuProvider.GpuUtils(gpu, d.util);
    if utils == [] then
      p.(card := MetricCard.SetUnavailable(p.card, "N/A"), info := if p.info.Some? then Some(NoGpuData) else None)
    else
      var card := MetricCard.UpdatePercent(p.card, Some(Mean(utils)));
      var freqs := GpuProvider.GpuFrequencies(gpu, d.clock);
      var card' := if freqs != [] && freqs[0] > 0.0 then MetricCard.SetFrequency(card, freqs[0]) else card;
      var vram := GpuProvider.GpuVramInfo(gpu, d.mem);
      var temps := SystemInfo.GpuTemperatures(gpu, d.temp, d.smiTemps, d.parse);
      var p1 := if p.chart.Some? && tab == 5 then GpuCharts(p, utils, vram, temps) else p;
      var lines := GpuLines(GpuProvider.GpuNames(gpu), utils, vram, freqs, temps);
      p1.(card := card', tooltip := lines, info := if p.info.Some? then Some(Details(lines)) else None)
  }

  /** `_update_gpu`: the gate, then the refresh when it fires. */
  function UpdateGpu(m: Monitor, dt: real, d: GpuDevices): (m': Monitor)
    requires Valid(m)
    ensures Valid(m') && m' == m.(gpuPanel := m'.gpuPanel)
    ensures var (fires, acc) := Gate(m.gpuPanel.accum, dt, m.spinGpuMs);
      && (!fires ==> m'.gpuPanel == m.gpuPanel.(accum := Some(acc)))
      && (fires ==> m'.gpuPanel == RefreshGpu(m.gpuPanel, m.gpu, m.currentTab, d).(accum := Some(0.0)))
  {
    var (fires, acc) := Gate(m.gpuPanel.accum, dt, m.spinGpuMs);
    if fires then m.(gpuPanel := RefreshGpu(m.gpuPanel, m.gpu, m.currentTab, d).(accum := Some(0.0)))
    else m.(gpuPanel := m.gpuPanel.(accum := Some(acc)))
  }

  // ---------------------------------------------------------------- processes and the whole tick

  /** `_update_processes`: the gate, then `refresh_processes()` exactly once when it fires. */
  function UpdateProcesses(m: Monitor, dt: real, s: Sample): (m': Monitor)
    requires Valid(m)
    ensures Valid(m') && m' == m.(proc := m'.proc)
    ensures var (fires, acc) := Gate(m.proc.accum, dt, m.spinProcMs);
      && m'.proc.accum == Some(acc) && m'.proc.filter == m.proc.filter
      && m'.proc.manager == (if fires then ProcessManager.RefreshProcesses(m.proc.manager, s.cpuCount, m.proc.filter, s.threadsOf)
                             else m.proc.manager)
  {
    var (fires, acc) := Gate(m.proc.accum, dt, m.spinProcMs);
    var manager := if fires then ProcessManager.RefreshProcesses(m.proc.manager, s.cpuCount, m.proc.filter, s.threadsOf)
                   else m.proc.manager;
    m.(proc := m.proc.(accum := Some(acc), manager := manager))
  }

  /**
   * `update_all_metrics`: cpu, memory, network, disk, gpu and processes, in
   * that order. The six steps touch disjoint panels, so each panel ends as
   * its own step leaves it when applied once to the monitor as it was, and
   * nothing outside the six panels changes.
   */
  function UpdateAll(m: Monitor, dt: real, s: Sample, alpha: real): (m': Monitor)
    requires Valid(m) && dt > 0.0
    ensures Valid(m')
    ensures m'.cpu == UpdateCpu(m, s).cpu
    ensures m'.mem == UpdateMemory(m, s).mem
    ensures m'.net == UpdateNetwork(m, dt, s.net, alpha).net
    ensures m'.disk == UpdateDisk(m, dt, s.disk, alpha).disk
    ensures m'.gpuPanel == UpdateGpu(m, dt, s.devices).gpuPanel
    ensures m'.proc == UpdateProcesses(m, dt, s).proc
    ensures m' == m.(cpu := m'.cpu, mem := m'.mem, net := m'.net, disk := m'.disk, gpuPanel := m'.gpuPanel,
                     proc := m'.proc)
  {
    var m1 := UpdateCpu(m, s);
    var m2 := UpdateMemory(m1, s);
    MemoryIsLocal(m1, m, s);
    var m3 := UpdateNetwork(m2, dt, s.net, alpha);
    NetworkIsLocal(m2, m, dt, s.net, alpha);
    var m4 := UpdateDisk(m3, dt, s.disk, alpha);
    DiskIsLocal(m3, m, dt, s.disk, alpha);
    var m5 := UpdateGpu(m4, dt, s.devices);
    GpuIsLocal(m4, m, dt, s.devices);
    var m6 := UpdateProcesses(m5, dt, s);
    ProcessesIsLocal(m5, m, dt, s);
    m6
  }

  // Each step reads only its own panel and the shared settings it names.

  lemma MemoryIsLocal(a: Monitor, b: Monitor, s: Sample)
    requires Valid(a) && Valid(b) && a.mem == b.mem && a.currentTab == b.currentTab
    ensures UpdateMemory(a, s).mem == UpdateMemory(b, s).mem
  {
  }

  lemma NetworkIsLocal(a: Monitor, b: Monitor, dt: real, net: NetCounters, alpha: real)
    requires Valid(a) && Valid(b) && dt > 0.0
    requires a.net == b.net && a.currentTab == b.currentTab && a.bytesPerUnit == b.bytesPerUnit
    ensures UpdateNetwork(a, dt, net, alpha).net == UpdateNetwork(b, dt, net, alpha).net
  {
  }

  lemma DiskIsLocal(a: Monitor, b: Monitor, dt: real, dio: Option<DiskCounters>, alpha: real)
    requires Valid(a) && Valid(b) && dt > 0.0
    requires a.disk == b.disk && a.currentTab == b.currentTab && a.bytesPerUnit == b.bytesPerUnit
    ensures UpdateDisk(a, dt, dio, alpha).disk == UpdateDisk(b, dt, dio, alpha).disk
  {
  }

  lemma GpuIsLocal(a: Monitor, b: Monitor, dt: real, d: GpuDevices)
    requires Valid(a) && Valid(b)
    requires a.gpuPanel == b.gpuPanel && a.gpu == b.gpu && a.currentTab == b.currentTab && a.spinGpuMs == b.spinGpuMs
    ensures UpdateGpu(a, dt, d).gpuPanel == UpdateGpu(b, dt, d).gpuPanel
  {
  }

  lemma ProcessesIsLocal(a: Monitor, b: Monitor, dt: real, s: Sample)
    requires Valid(a) && Valid(b) && a.proc == b.proc && a.spinProcMs == b.spinProcMs
    ensures UpdateProcesses(a, dt, s).proc == UpdateProcesses(b, dt, s).proc
  {
  }

  // ---------------------------------------------------------------- properties

  lemma MulLe(a: real, x: real, y: real)
    requires a >= 0.0 && x <= y
    ensures a * x <= a * y
  {
  }

  lemma AddOnce(x: real, d: real)
    ensures x * d + d == (x + 1.0) * d
  {
  }

  lemma ScaleDown(alpha: real, d: real)
    requires 0.0 < alpha <= 1.0 && d >= 0.0
    ensures 0.0 <= alpha * d
    ensures alpha * d <= d
  {
    MulLe(d, alpha, 1.0);
    MulLe(alpha, 0.0, d);
  }

  /** Decaying a non-negative value by a factor in (0, 1] keeps it in `[0, v]`. */
  lemma {:induction false} DecayBounds(v: real, alpha: real, k: nat)
    requires 0.0 < alpha <= 1.0 && v >= 0.0
    ensures 0.0 <= Decay(v, alpha, k)
    ensures Decay(v, alpha, k) <= v
    decreases k
  {
    if k > 0 {
      DecayBounds(v, alpha, k - 1);
      ScaleDown(alpha, Decay(v, alpha, k - 1));
    }
  }

  /** One decayed-peak step keeps a decayed lower bound, one decay further. */
  lemma DecayStep(rate: real, x: real, alpha: real, v: real, k: nat)
    requires alpha > 0.0 && x >= Decay(v, alpha, k)
    ensures DecayedPeak(rate, x, alpha) >= Decay(v, alpha, k + 1)
  {
    MulLe(alpha, Decay(v, alpha, k), x);
  }

  /** With no traffic the reference peak shrinks geometrically: after `n` quiet ticks it is `alpha^n` times its start. */
  lemma {:induction false} QuietPeakDecays(peak: real, rates: seq<real>, alpha: real)
    requires 0.0 < alpha <= 1.0 && peak >= 0.0
    requires forall i :: 0 <= i < |rates| ==> rates[i] == 0.0
    ensures PeakAfter(peak, rates, alpha) == Decay(peak, alpha, |rates|)
    decreases |rates|
  {
    var n := |rates|;
    if n > 0 {
      var init := rates[..n - 1];
      assert forall i :: 0 <= i < |init| ==> init[i] == rates[i];
      QuietPeakDecays(peak, init, alpha);
      DecayBounds(peak, alpha, n - 1);
      MulLe(alpha, 0.0, Decay(peak, alpha, n - 1));
    }
  }

  /** Hence a quiet peak never grows and never turns negative. */
  lemma QuietPeakShrinks(peak: real, rates: seq<real>, alpha: real)
    requires 0.0 < alpha <= 1.0 && peak >= 0.0
    requires forall i :: 0 <= i < |rates| ==> rates[i] == 0.0
    ensures 0.0 <= PeakAfter(peak, rates, alpha)
    ensures PeakAfter(peak, rates, alpha) <= peak
  {
    QuietPeakDecays(peak, rates, alpha);
    DecayBounds(peak, alpha, |rates|);
  }

  /** The reference peak is never below an earlier rate decayed by the ticks since. */
  lemma {:induction false} PeakAboveRate(peak: real, rates: seq<real>, alpha: real, i: nat)
    requires 0.0 < alpha && i < |rates|
    ensures PeakAfter(peak, rates, alpha) >= Decay(rates[i], alpha, |rates| - 1 - i)
    decreases |rates|
  {
    var n := |rates|;
    var init := rates[..n - 1];
    if i < n - 1 {
      PeakAboveRate(peak, init, alpha, i);
      assert init[i] == rates[i];
      DecayStep(rates[n - 1], PeakAfter(peak, init, alpha), alpha, rates[i], n - 2 - i);
    }
  }

  /** The reference peak is never below the starting peak decayed by every tick. */
  lemma {:induction false} PeakAboveStart(peak: real, rates: seq<real>, alpha: real)
    requires 0.0 < alpha
    ensures PeakAfter(peak, rates, alpha) >= Decay(peak, alpha, |rates|)
    decreases |rates|
  {
    var n := |rates|;
    if n > 0 {
      var init := rates[..n - 1];
      PeakAboveStart(peak, init, alpha);
      DecayStep(rates[n - 1], PeakAfter(peak, init, alpha), alpha, peak, n - 1);
    }
  }

  /** The reference peak is one of those decayed values: the decayed start or a decayed earlier rate. */
  lemma {:induction false} PeakAttained(peak: real, rates: seq<real>, alpha: real)
    ensures || PeakAfter(peak, rates, alpha) == Decay(peak, alpha, |rates|)
            || exists i :: 0 <= i < |rates| && PeakAfter(peak, rates, alpha) == Decay(rates[i], alpha, |rates| - 1 - i)
    decreases |rates|
  {
    var n := |rates|;
    if n > 0 {
      var init := rates[..n - 1];
      var x := PeakAfter(peak, init, alpha);
      var r := PeakAfter(peak, rates, alpha);
      PeakAttained(peak, init, alpha);
      if r == rates[n - 1] {
        assert r == Decay(rates[n - 1], alpha, n - 1 - (n - 1));
      } else if x != Decay(peak, alpha, n - 1) {
        var i :| 0 <= i < n - 1 && x == Decay(init[i], alpha, n - 2 - i);
        assert init[i] == rates[i];
        assert r == Decay(rates[i], alpha, n - 1 - i);
      }
    }
  }

  /** While the accumulator stays below the interval, the gate only accumulates `dt` per tick. */
  lemma {:induction false} QuietUntilDue(a: real, dt: real, spinMs: int, n: nat)
    requires dt >= 0.0 && a + (n as real) * dt < spinMs as real / 1000.0
    ensures GateRun(a, dt, spinMs, n) == (0, a + (n as real) * dt)
    decreases n
  {
    if n > 0 {
      var k := (n - 1) as real;
      var acc := a + k * dt;
      var total := a + (n as real) * dt;
      assert acc + dt == total by {
        AddOnce(k, dt);
        assert k + 1.0 == n as real;
      }
      QuietUntilDue(a, dt, spinMs, n - 1);
      assert GateRun(a, dt, spinMs, n - 1) == (0, acc);
      assert Gate(Some(acc), dt, spinMs) == (false, total);
    }
  }

  /** The refresh runs exactly once, on the tick where the accumulated time reaches the interval, and the accumulator restarts. */
  lemma FiresWhenDue(a: real, dt: real, spinMs: int, n: nat)
    requires dt >= 0.0
    requires a + (n as real) * dt < spinMs as real / 1000.0 <= a + ((n + 1) as real) * dt
    ensures GateRun(a, dt, spinMs, n + 1) == (1, 0.0)
  {
    QuietUntilDue(a, dt, spinMs, n);
    AddOnce(n as real, dt);
  }

  lemma {:induction false} SumBounds(s: seq<real>, lo: real, hi: real)
    requires forall i :: 0 <= i < |s| ==> lo <= s[i] <= hi
    ensures (|s| as real) * lo <= SumReal(s)
    ensures SumReal(s) <= (|s| as real) * hi
    decreases |s|
  {
    if s != [] {
      var init := s[..|s| - 1];
      assert forall i :: 0 <= i < |init| ==> init[i] == s[i];
      SumBounds(init, lo, hi);
      assert SumReal(s) == SumReal(init) + s[|s| - 1];
      AddOnce(|init| as real, lo);
      AddOnce(|init| as real, hi);
    }
  }

  lemma DivLe(x: real, y: real, n: real)
    requires n > 0.0 && x <= y
    ensures x / n <= y / n
  {
  }

  /** The GPU card's mean lies between the smallest and the largest utilisation bound. */
  lemma MeanBetween(utils: seq<real>, lo: real, hi: real)
    requires utils != [] && forall i :: 0 <= i < |utils| ==> lo <= utils[i] <= hi
    ensures lo <= Mean(utils)
    ensures Mean(utils) <= hi
  {
    SumBounds(utils, lo, hi);
    var n := |utils| as real;
    DivLe(n * lo, SumReal(utils), n);
    DivLe(SumReal(utils), n * hi, n);
    assert (n * lo) / n == lo && (n * hi) / n == hi;
  }

  /**
   * A GPU refresh with utilisations puts their mean on the card, writes one
   * tooltip line per GPU (mirrored in the info label when there is one) and
   * touches the GPU charts only while the GPU tab is shown.
   */
  lemma GpuRefreshShowsMean(m: Monitor, dt: real, d: GpuDevices)
    requires Valid(m) && Gate(m.gpuPanel.accum, dt, m.spinGpuMs).0
    requires GpuProvider.GpuUtils(m.gpu, d.util) != []
    ensures var utils := GpuProvider.GpuUtils(m.gpu, d.util);
      var p := UpdateGpu(m, dt, d).gpuPanel;
      && p.accum == Some(0.0)
      && p.card.display == MetricCard.Percent(MetricCard.Clamp(Mean(utils)))
      && p.tooltip == GpuLines(GpuProvider.GpuNames(m.gpu), utils, GpuProvider.GpuVramInfo(m.gpu, d.mem),
                               GpuProvider.GpuFrequencies(m.gpu, d.clock),
                               SystemInfo.GpuTemperatures(m.gpu, d.temp, d.smiTemps, d.parse))
      && |p.tooltip| == |utils|
      && (m.gpuPanel.info.Some? ==> p.info == Some(Details(p.tooltip)))
      && (m.currentTab == 5 && m.gpuPanel.chart.Some? ==>
            p.chart == Some(TimeSeriesChart.Append(m.gpuPanel.chart.value, utils)))
      && (m.currentTab != 5 || m.gpuPanel.chart.None? ==>
            p.chart == m.gpuPanel.chart && p.vramChart == m.gpuPanel.vramChart && p.tempChart == m.gpuPanel.tempChart)
  {
  }

  /** A GPU refresh without utilisations (always so without a backend) shows "N/A" and empties the bar. */
  lemma GpuRefreshWithoutData(m: Monitor, dt: real, d: GpuDevices)
    requires Valid(m) && Gate(m.gpuPanel.accum, dt, m.spinGpuMs).0
    requires GpuProvider.GpuUtils(m.gpu, d.util) == [] || m.gpu.backend == GpuProvider.NoBackend
    ensures var p := UpdateGpu(m, dt, d).gpuPanel;
      && p.accum == Some(0.0)
      && p.card.display == MetricCard.Message("N/A") && p.card.bar == 0
      && p.info == (if m.gpuPanel.info.Some? then Some(NoGpuData) else None)
      && p.tooltip == m.gpuPanel.tooltip
      && p.chart == m.gpuPanel.chart && p.vramChart == m.gpuPanel.vramChart && p.tempChart == m.gpuPanel.tempChart
  {
  }

  /** A burst above the decayed peak becomes the new peak, so the card's bar is full. */
  lemma NetBurstFillsBar(m: Monitor, dt: real, net: NetCounters, alpha: real)
    requires Valid(m) && dt > 0.0 && !m.net.cardUp.isPercent
    requires var up := Rate(net.bytesSent, m.net.last.bytesSent, dt, m.bytesPerUnit);
      up >= alpha * m.net.peakUp && up >= MetricCard.ScaleFloor
    ensures UpdateNetwork(m, dt, net, alpha).net.peakUp == Rate(net.bytesSent, m.net.last.bytesSent, dt, m.bytesPerUnit)
    ensures UpdateNetwork(m, dt, net, alpha).net.cardUp.bar == 100
  {
    var up := Rate(net.bytesSent, m.net.last.bytesSent, dt, m.bytesPerUnit);
    MetricCard.ReferenceScale(m.net.cardUp, up, up);
  }

  /**
   * A failed disk reading clears the baseline: that tick and the next one
   * report zero rates, and only the tick after that measures again.
   */
  lemma DiskFailureResetsBaseline(m: Monitor, dt: real, next: DiskCounters, later: DiskCounters, alpha: real)
    requires Valid(m) && dt > 0.0
    ensures var m1 := UpdateDisk(m, dt, None, alpha);
      var m2 := UpdateDisk(m1, dt, Some(next), alpha);
      var m3 := UpdateDisk(m2, dt, Some(later), alpha);
      && m1.disk.last.None?
      && DiskRates(None, m.disk.last, dt, m.bytesPerUnit) == (0.0, 0.0)
      && DiskRates(Some(next), m1.disk.last, dt, m.bytesPerUnit) == (0.0, 0.0)
      && m2.disk.last == Some(next)
      && DiskRates(Some(later), m2.disk.last, dt, m.bytesPerUnit)
           == (Rate(later.readBytes, next.readBytes, dt, m.bytesPerUnit),
               Rate(later.writeBytes, next.writeBytes, dt, m.bytesPerUnit))
  {
  }
}
