/**
 * The main window's own handlers (`SystemMonitor`): the timer callback that
 * drives every tick, the initial metric state, the default unit and the
 * close event. The elapsed-time clock is the reading `now` in milliseconds
 * passed to each tick; `clockStart` is when it was last restarted.
 */
module App {
  import opened Wrappers
  import MetricCard
  import ProcessManager
  import opened MonitorState
  import opened MetricsUpdater
  import EventHandlers

  /** `max(1, elapsed_ms) / 1000.0`: the tick length in seconds, at least one millisecond. */
  function Elapsed(start: int, now: int): (dt: real)
    ensures dt >= 0.001
    ensures now - start >= 1 ==> dt * 1000.0 == (now - start) as real
    ensures now - start < 1 ==> dt == 0.001
  {
    var ms := if now - start > 1 then now - start else 1;
    ms as real / 1000.0
  }

  /**
   * `on_timer`: a paused tick only restarts the clock; otherwise the clock
   * restarts and every metric is updated once with the elapsed time.
   * `alpha` is the peak decay `exp(-dt / 10)` for this tick's `dt`.
   */
  function OnTimer(m: Monitor, now: int, s: Sample, alpha: real): (m': Monitor)
    requires Valid(m)
    ensures Valid(m') && m'.clockStart == now
    ensures m.paused ==> m' == m.(clockStart := now)
    ensures !m.paused ==> m' == UpdateAll(m.(clockStart := now), Elapsed(m.clockStart, now), s, alpha)
  {
    if m.paused then m.(clockStart := now)
    else UpdateAll(m.(clockStart := now), Elapsed(m.clockStart, now), s, alpha)
  }

  /**
   * `_init_metrics_state`: the first counter samples become the previous
   * ones, the clock starts, the four reference peaks start at 1 and the GPU
   * refresh accumulator at 0.
   */
  function InitMetricsState(m: Monitor, net: NetCounters, disk: Option<DiskCounters>, now: int): (m': Monitor)
    requires Valid(m)
    ensures Valid(m')
    ensures m'.net.last == net && m'.disk.last == disk && m'.clockStart == now
    ensures m'.net.peakUp == 1.0 && m'.net.peakDown == 1.0
    ensures m'.disk.peakRead == 1.0 && m'.disk.peakWrite == 1.0
    ensures m'.gpuPanel.accum == Some(0.0)
    ensures m' == m.(clockStart := now, net := m'.net, disk := m'.disk, gpuPanel := m'.gpuPanel)
    ensures m'.net == m.net.(last := net, peakUp := 1.0, peakDown := 1.0)
    ensures m'.disk == m.disk.(last := disk, peakRead := 1.0, peakWrite := 1.0)
    ensures m'.gpuPanel == m.gpuPanel.(accum := Some(0.0))
  {
    m.(clockStart := now,
       net := m.net.(last := net, peakUp := 1.0, peakDown := 1.0),
       disk := m.disk.(last := disk, peakRead := 1.0, peakWrite := 1.0),
       gpuPanel := m.gpuPanel.(accum := Some(0.0)))
  }

  /**
   * `_init_process_state`: an empty search filter, the process refresh
   * accumulator at 0 and the priming flag cleared; the collector and the
   * tree are left as they are.
   */
  function InitProcessState(m: Monitor): (m': Monitor)
    requires Valid(m)
    ensures Valid(m')
    ensures m'.proc.filter == "" && m'.proc.accum == Some(0.0) && !m'.proc.manager.primed
    ensures m'.proc.manager == m.proc.manager.(primed := false)
    ensures m' == m.(proc := m'.proc)
  {
    m.(proc := ProcPanel(Some(0.0), m.proc.manager.(primed := false), ""))
  }

  /** `_wire_unit_selectors`: the default unit MiB/s, applied through the unit handler. */
  function WireUnitSelectors(m: Monitor): (m': Monitor)
    requires Valid(m)
    ensures Valid(m')
    ensures m'.unitMode == "MiB/s" && m'.bytesPerUnit == 1048576
    ensures m'.comboNet == "MiB/s" && m'.comboDisk == "MiB/s"
    ensures m'.net.cardUp.unit == "MiB/s" && m'.net.cardDown.unit == "MiB/s"
    ensures m'.disk.cardRead.unit == "MiB/s" && m'.disk.cardWrite.unit == "MiB/s"
    ensures m'.net.chartTitle == "Network Throughput (MiB/s)" && m'.disk.chartTitle == "Disk Throughput (MiB/s)"
    ensures m'.net.peakUp == 1.0 && m'.net.peakDown == 1.0 && m'.disk.peakRead == 1.0 && m'.disk.peakWrite == 1.0
  {
    var m1 := m.(unitMode := "MiB/s", bytesPerUnit := EventHandlers.Mebibyte);
    EventHandlers.OnUnitChanged(m1, "MiB/s")
  }

  /** `closeEvent`: the process collector is shut down and forgotten; nothing else changes. */
  function CloseEvent(m: Monitor): (m': Monitor)
    requires Valid(m)
    ensures Valid(m') && m'.proc.manager.collector.None?
    ensures m' == m.(proc := m.proc.(manager := m.proc.manager.(collector := None)))
  {
    m.(proc := m.proc.(manager := ProcessManager.ShutdownCollector(m.proc.manager).0))
  }

  // ---------------------------------------------------------------- properties

  /** Setting the unit before calling the handler is redundant: wiring is the handler with MiB/s. */
  lemma WiringIsUnitChange(m: Monitor)
    requires Valid(m)
    ensures WireUnitSelectors(m) == EventHandlers.OnUnitChanged(m, "MiB/s")
  {
  }

  /**
   * Time spent paused is not counted: after a paused tick at `t1` and a
   * resume, the next tick at `t2` measures only `t2 - t1`.
   */
  lemma PausedTimeNotCounted(m: Monitor, t1: int, t2: int, s: Sample, alpha: real)
    requires Valid(m) && m.paused
    ensures var m1 := EventHandlers.TogglePause(OnTimer(m, t1, s, alpha));
      OnTimer(m1, t2, s, alpha) == UpdateAll(EventHandlers.TogglePause(m).(clockStart := t2), Elapsed(t1, t2), s, alpha)
  {
    var m0 := OnTimer(m, t1, s, alpha);
    var m1 := EventHandlers.TogglePause(m0);
    assert m0 == m.(clockStart := t1);
    assert m1 == EventHandlers.TogglePause(m).(clockStart := t1);
    assert m1.(clockStart := t2) == EventHandlers.TogglePause(m).(clockStart := t2);
  }

  /**
   * After `_init_process_state` the first process tick counts its own
   * length: below the refresh interval it leaves exactly `dt` accumulated,
   * and it refreshes iff `dt` alone reaches the interval.
   */
  lemma FirstProcessTickCounts(m: Monitor, dt: real, s: Sample)
    requires Valid(m)
    ensures var m' := UpdateProcesses(InitProcessState(m), dt, s);
      && (dt < m.spinProcMs as real / 1000.0 ==> m'.proc.accum == Some(dt))
      && (dt >= m.spinProcMs as real / 1000.0 ==> m'.proc.accum == Some(0.0))
      && m'.proc.filter == ""
  {
  }

  /** Closing twice is closing once; a later close finds no collector to shut down. */
  lemma CloseIdempotent(m: Monitor)
    requires Valid(m)
    ensures CloseEvent(CloseEvent(m)) == CloseEvent(m)
    ensures ProcessManager.ShutdownCollector(CloseEvent(m).proc.manager).1.None?
  {
  }

  /**
   * Right after initialisation, a tick that sees unchanged counters reports
   * zero throughput and lets both network peaks decay from 1 to `alpha`.
   */
  lemma {:induction false} QuietFirstTick(m: Monitor, net: NetCounters, disk: Option<DiskCounters>,
                                          t0: int, t1: int, s: Sample, alpha: real)
    requires Valid(m) && !m.paused && 0.0 < alpha <= 1.0 && s.net == net
    ensures var m' := OnTimer(InitMetricsState(m, net, disk, t0), t1, s, alpha);
      && m'.net.peakUp == alpha && m'.net.peakDown == alpha
      && m'.net.cardUp.display == MetricCard.Amount(0.0) && m'.net.cardDown.display == MetricCard.Amount(0.0)
      && m'.net.last == net
  {
    var m0 := InitMetricsState(m, net, disk, t0);
    var dt := Elapsed(t0, t1);
    var mc := m0.(clockStart := t1);
    var n := UpdateNetwork(mc, dt, net, alpha).net;
    var up := Rate(net.bytesSent, mc.net.last.bytesSent, dt, mc.bytesPerUnit);
    var down := Rate(net.bytesRecv, mc.net.last.bytesRecv, dt, mc.bytesPerUnit);
    assert up == 0.0 && down == 0.0;
    assert n.peakUp == alpha && n.peakDown == alpha;
    assert OnTimer(m0, t1, s, alpha).net == n;
  }
}
