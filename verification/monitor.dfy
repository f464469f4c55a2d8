/**
 * The attributes of the main window (`SystemMonitor`) that the tick driver,
 * the metric updaters and the event handlers read and write. Widgets are
 * kept as the data they show: cards and charts as their models, labels as
 * the numbers or records they format.
 */
module MonitorState {
  import opened Wrappers
  import MetricCard
  import TimeSeriesChart
  import GpuProvider
  import ProcessManager

  /** The part of `psutil.net_io_counters()` the updater reads. */
  datatype NetCounters = NetCounters(bytesSent: nat, bytesRecv: nat)

  /** The part of `psutil.disk_io_counters()` the updater reads. */
  datatype DiskCounters = DiskCounters(readBytes: nat, writeBytes: nat)

  /**
   * One GPU's line of the card tooltip and of the info label: the tooltip
   * shows `name: u%` and the label `GPU i (name): Utilization u%`, each
   * followed by the optional VRAM, clock and temperature parts.
   */
  datatype GpuLine = GpuLine(
    index: nat,
    name: string,
    util: real,
    vram: Option<GpuProvider.Vram>,   // `used/total MB (pct%)`, only when total > 0
    clock: Option<real>,              // `MHz`, only when positive
    temp: Option<real>                // `°C`, only when positive
  )

  /** The text of `lbl_gpu_info`. */
  datatype InfoLabel =
    | Blank                        // `QLabel("")` as built
    | NoGpuData                    // `"No GPU data available"`
    | Details(lines: seq<GpuLine>) // one line per GPU, joined by newlines

  /** The caption of the pause button. */
  datatype PauseButton = ShowsPause | ShowsResume

  /** The CPU card and the CPU tab: total chart, per-core charts and their frequency labels. */
  datatype CpuPanel = CpuPanel(
    card: MetricCard.Card,                   // `card_cpu`
    chart: TimeSeriesChart.Chart,            // `chart_cpu`
    coreCharts: seq<TimeSeriesChart.Chart>,  // `core_charts`
    coreFreqLabels: seq<Option<real>>        // `core_freq_labels`: None while they show `-- MHz`
  )

  datatype MemPanel = MemPanel(card: MetricCard.Card, chart: TimeSeriesChart.Chart)

  /** Network throughput: the previous sample, the two reference peaks, the cards and the chart. */
  datatype NetPanel = NetPanel(
    last: NetCounters,                       // `_last_net`
    peakUp: real,                            // `_net_dyn_up`
    peakDown: real,                          // `_net_dyn_down`
    cardUp: MetricCard.Card,
    cardDown: MetricCard.Card,
    chart: TimeSeriesChart.Chart,
    chartTitle: string
  )

  /** Disk throughput, laid out as the network panel; the previous sample may be missing. */
  datatype DiskPanel = DiskPanel(
    last: Option<DiskCounters>,              // `_last_disk`
    peakRead: real,                          // `_disk_dyn_read`
    peakWrite: real,                         // `_disk_dyn_write`
    cardRead: MetricCard.Card,
    cardWrite: MetricCard.Card,
    chart: TimeSeriesChart.Chart,
    chartTitle: string
  )

  /** The GPU card, its tooltip, the GPU tab's charts and info label, and the refresh accumulator. */
  datatype GpuPanel = GpuPanel(
    accum: Option<real>,                     // `_gpu_refresh_accum`, None while unset
    card: MetricCard.Card,                   // `card_gpu`
    tooltip: seq<GpuLine>,
    info: Option<InfoLabel>,                 // `lbl_gpu_info`, None when there is no GPU tab
    chart: Option<TimeSeriesChart.Chart>,    // `chart_gpu`
    vramChart: Option<TimeSeriesChart.Chart>,
    tempChart: Option<TimeSeriesChart.Chart>
  )

  /** The process tab: the refresh accumulator, the manager state and the search filter. */
  datatype ProcPanel = ProcPanel(
    accum: Option<real>,                     // `_proc_refresh_accum`, None while unset
    manager: ProcessManager.Manager,
    filter: string                           // `_proc_filter`
  )

  datatype Monitor = Monitor(
    intervalMs: nat,                         // `interval_ms`
    timerMs: nat,                            // the interval the `QTimer` runs at
    paused: bool,                            // `_paused`
    title: string,                           // the window title
    button: PauseButton,
    clockStart: int,                         // when `_elapsed` was last (re)started, in ms
    currentTab: int,                         // `tabs.currentIndex()`
    spinGpuMs: int,                          // `spin_gpu_refresh.value()`
    spinProcMs: int,                         // `spin_proc_refresh.value()`
    unitMode: string,                        // `unit_mode`
    bytesPerUnit: nat,                       // `_bytes_per_unit`
    comboNet: string,                        // `unit_combo_net.currentText()`
    comboDisk: string,                       // `unit_combo_disk.currentText()`
    gpu: GpuProvider.Provider,               // `gpu_provider`
    cpu: CpuPanel,
    mem: MemPanel,
    net: NetPanel,
    disk: DiskPanel,
    gpuPanel: GpuPanel,
    proc: ProcPanel
  )

  ghost predicate ChartsValid(charts: seq<TimeSeriesChart.Chart>) {
    forall i :: 0 <= i < |charts| ==> TimeSeriesChart.Valid(charts[i])
  }

  ghost predicate OptChartValid(c: Option<TimeSeriesChart.Chart>) {
    c.Some? ==> TimeSeriesChart.Valid(c.value)
  }

  ghost predicate CpuValid(p: CpuPanel) {
    MetricCard.Valid(p.card) && TimeSeriesChart.Valid(p.chart) && ChartsValid(p.coreCharts)
  }

  ghost predicate MemValid(p: MemPanel) {
    MetricCard.Valid(p.card) && TimeSeriesChart.Valid(p.chart)
  }

  ghost predicate NetValid(p: NetPanel) {
    MetricCard.Valid(p.cardUp) && MetricCard.Valid(p.cardDown) && TimeSeriesChart.Valid(p.chart)
  }

  ghost predicate DiskValid(p: DiskPanel) {
    MetricCard.Valid(p.cardRead) && MetricCard.Valid(p.cardWrite) && TimeSeriesChart.Valid(p.chart)
  }

  ghost predicate GpuValid(p: GpuPanel) {
    MetricCard.Valid(p.card) && OptChartValid(p.chart) && OptChartValid(p.vramChart) && OptChartValid(p.tempChart)
  }

  /** Every card and chart is well formed, the unit is positive and the collector slot is consistent. */
  ghost predicate Valid(m: Monitor) {
    && CpuValid(m.cpu) && MemValid(m.mem) && NetValid(m.net) && DiskValid(m.disk) && GpuValid(m.gpuPanel)
    && ProcessManager.Valid(m.proc.manager)
    && m.bytesPerUnit > 0
  }
}
