/**
 * The window's event handlers (`EventHandlers`): the throughput unit
 * selectors, the update-interval spin box, the pause toggle and its window
 * title, and the process search box.
 */
module EventHandlers {
  import opened Wrappers
  import opened Text
  import ProcessManager
  import opened MonitorState

  const Megabyte: nat := 1000000
  const Mebibyte: nat := 1048576

  /** The unit table of `on_unit_changed`: bytes per displayed unit, for the two known modes only. */
  function UnitBytes(mode: string): (r: Option<nat>)
    ensures r.Some? <==> mode == "MB/s" || mode == "MiB/s"
    ensures r.Some? ==> r.value > 0
  {
    if mode == "MB/s" then Some(Megabyte) else if mode == "MiB/s" then Some(Mebibyte) else None
  }

  /** The network chart's title; the unit reads back from between the parentheses. */
  function NetTitle(mode: string): (t: string)
    ensures |t| == |mode| + 21 && t[..20] == "Network Throughput (" && t[|t| - 1] == ')'
    ensures t[20..|t| - 1] == mode
  {
    "Network Throughput (" + mode + ")"
  }

  /** The disk chart's title; the unit reads back from between the parentheses. */
  function DiskTitle(mode: string): (t: string)
    ensures |t| == |mode| + 18 && t[..17] == "Disk Throughput (" && t[|t| - 1] == ')'
    ensures t[17..|t| - 1] == mode
  {
    "Disk Throughput (" + mode + ")"
  }

  /**
   * `on_unit_changed(mode)`: an unknown mode is ignored; a known one becomes
   * the unit of both selectors, of the four throughput cards and of the two
   * chart titles, and the four reference peaks restart at 1.
   */
  function OnUnitChanged(m: Monitor, mode: string): (m': Monitor)
    requires Valid(m)
    ensures Valid(m')
    ensures UnitBytes(mode).None? ==> m' == m
    ensures UnitBytes(mode).Some? ==>
      && m'.unitMode == mode && m'.comboNet == mode && m'.comboDisk == mode
      && (mode == "MB/s" ==> m'.bytesPerUnit == 1000000)
      && (mode == "MiB/s" ==> m'.bytesPerUnit == 1048576)
      && m'.net == m.net.(peakUp := 1.0, peakDown := 1.0,
                          cardUp := m.net.cardUp.(unit := mode), cardDown := m.net.cardDown.(unit := mode),
                          chartTitle := "Network Throughput (" + mode + ")")
      && m'.disk == m.disk.(peakRead := 1.0, peakWrite := 1.0,
                            cardRead := m.disk.cardRead.(unit := mode), cardWrite := m.disk.cardWrite.(unit := mode),
                            chartTitle := "Disk Throughput (" + mode + ")")
      && m' == m.(unitMode := mode, bytesPerUnit := m'.bytesPerUnit, comboNet := mode, comboDisk := mode,
                  net := m'.net, disk := m'.disk)
  {
    match UnitBytes(mode)
    case None => m
    case Some(bpu) =>
      m.(unitMode := mode, bytesPerUnit := bpu, comboNet := mode, comboDisk := mode,
         net := m.net.(peakUp := 1.0, peakDown := 1.0,
                       cardUp := m.net.cardUp.(unit := mode), cardDown := m.net.cardDown.(unit := mode),
                       chartTitle := NetTitle(mode)),
         disk := m.disk.(peakRead := 1.0, peakWrite := 1.0,
                         cardRead := m.disk.cardRead.(unit := mode), cardWrite := m.disk.cardWrite.(unit := mode),
                         chartTitle := DiskTitle(mode)))
  }

  /** `_update_window_title`: the interval in milliseconds, and a marker while paused. */
  function WindowTitle(ms: nat, paused: bool): (t: string)
    ensures |t| == 20 + |NatToString(ms)| + (if paused then 9 else 0)
    ensures t[..16] == "System Monitor ("
    ensures t[16..16 + |NatToString(ms)|] == NatToString(ms)
    ensures t[16 + |NatToString(ms)|..20 + |NatToString(ms)|] == " ms)"
    ensures paused ==> t[|t| - 9..] == " [PAUSED]"
    ensures !paused ==> t[|t| - 4..] == " ms)"
  {
    var head := "System Monitor (" + NatToString(ms) + " ms)";
    assert head[..16] == "System Monitor (";
    assert head[16..16 + |NatToString(ms)|] == NatToString(ms);
    assert head[16 + |NatToString(ms)|..] == " ms)";
    head + (if paused then " [PAUSED]" else "")
  }

  /**
   * The window's presentation agrees with its state: the title shows the
   * interval and the pause state, the button offers the opposite of the
   * current state, and the timer runs at the interval.
   */
  predicate Consistent(m: Monitor) {
    && m.title == WindowTitle(m.intervalMs, m.paused)
    && (m.button == ShowsResume <==> m.paused)
    && m.timerMs == m.intervalMs
  }

  /**
   * `on_interval_changed(val)`: the interval becomes `max(1, val)`; the timer
   * and the title follow only when that differs from the current interval.
   */
  function OnIntervalChanged(m: Monitor, val: int): (m': Monitor)
    ensures m'.intervalMs >= 1
    ensures val >= 1 ==> m'.intervalMs == val
    ensures val < 1 ==> m'.intervalMs == 1
    ensures m'.intervalMs == m.intervalMs ==> m' == m
    ensures m'.intervalMs != m.intervalMs ==>
      m' == m.(intervalMs := m'.intervalMs, timerMs := m'.intervalMs, title := WindowTitle(m'.intervalMs, m.paused))
  {
    var ms := if val > 1 then val else 1;
    if ms != m.intervalMs then m.(intervalMs := ms, timerMs := ms, title := WindowTitle(ms, m.paused)) else m
  }

  /** `toggle_pause`: flips the pause state, the button caption and the title marker. */
  function TogglePause(m: Monitor): (m': Monitor)
    ensures m'.paused == !m.paused
    ensures m'.button == (if m'.paused then ShowsResume else ShowsPause)
    ensures m' == m.(paused := m'.paused, button := m'.button, title := WindowTitle(m.intervalMs, m'.paused))
  {
    var paused := !m.paused;
    m.(paused := paused, button := if paused then ShowsResume else ShowsPause,
       title := WindowTitle(m.intervalMs, paused))
  }

  /** The search text as the filter keeps it: `text.strip().lower()`. */
  function NormalizeFilter(text: string): (f: string)
    ensures |f| <= |text|
    ensures |f| == |Strip(text)|
    ensures forall i :: 0 <= i < |f| ==> f[i] == LowerChar(Strip(text)[i])
    ensures forall i :: 0 <= i < |f| ==> !IsUpper(f[i])
    ensures f == [] || (!IsSpace(f[0]) && !IsSpace(f[|f| - 1]))
  {
    var s := Strip(text);
    LowerKeepsEnds(s);
    Lower(s)
  }

  /** Lower-casing keeps a character whitespace or not, so a stripped string stays stripped. */
  lemma LowerKeepsEnds(s: string)
    requires s == [] || (!IsSpace(s[0]) && !IsSpace(s[|s| - 1]))
    ensures var f := Lower(s); f == [] || (!IsSpace(f[0]) && !IsSpace(f[|f| - 1]))
  {
    var f := Lower(s);
    if f != [] {
      assert !IsUpper(s[0]) ==> f[0] == s[0];
      assert !IsUpper(s[|s| - 1]) ==> f[|f| - 1] == s[|s| - 1];
    }
  }

  /**
   * `on_proc_search_changed(text)`: stores the normalised filter and, unless
   * paused, refreshes the process tree with it.
   */
  function OnProcSearchChanged(m: Monitor, text: string, cpuCount: Option<nat>,
                               threadsOf: nat -> Option<seq<nat>>): (m': Monitor)
    requires Valid(m)
    ensures Valid(m')
    ensures m'.proc.filter == NormalizeFilter(text) && m'.proc.accum == m.proc.accum
    ensures m' == m.(proc := m'.proc)
    ensures m.paused ==> m'.proc.manager == m.proc.manager
    ensures !m.paused ==>
      m'.proc.manager == ProcessManager.RefreshProcesses(m.proc.manager, cpuCount, NormalizeFilter(text), threadsOf)
  {
    var filter := NormalizeFilter(text);
    var manager := if m.paused then m.proc.manager
                   else ProcessManager.RefreshProcesses(m.proc.manager, cpuCount, filter, threadsOf);
    m.(proc := m.proc.(filter := filter, manager := manager))
  }

  // ---------------------------------------------------------------- properties

  /** Selecting a unit twice is selecting it once, and the latest selection wins. */
  lemma UnitSelectionLastWins(m: Monitor, a: string, b: string)
    requires Valid(m)
    ensures OnUnitChanged(OnUnitChanged(m, a), a) == OnUnitChanged(m, a)
    ensures UnitBytes(b).Some? ==> OnUnitChanged(OnUnitChanged(m, a), b) == OnUnitChanged(m, b)
  {
  }

  /** The throughput scale always follows the selected unit's table entry. */
  lemma UnitScaleMatchesMode(m: Monitor, mode: string)
    requires Valid(m) && UnitBytes(mode).Some?
    ensures OnUnitChanged(m, mode).bytesPerUnit == UnitBytes(mode).value
    ensures UnitBytes(OnUnitChanged(m, mode).unitMode) == Some(OnUnitChanged(m, mode).bytesPerUnit)
  {
  }

  /** Distinct states have distinct window titles. */
  lemma {:induction false} WindowTitleInjective(a: nat, p: bool, b: nat, q: bool)
    requires WindowTitle(a, p) == WindowTitle(b, q)
    ensures a == b && p == q
  {
    var title := WindowTitle(a, p);
    var da, db := NatToString(a), NatToString(b);
    assert title[16 + |da|] == ' ' && title[16 + |db|] == ' ';
    assert forall i :: 0 <= i < |da| ==> title[16 + i] == da[i];
    assert forall i :: 0 <= i < |db| ==> title[16 + i] == db[i];
    assert |da| == |db|;
    assert da == title[16..16 + |da|] == db;
    NatToStringInjective(a, b);
  }

  /** Pausing and resuming again restores a consistent window exactly. */
  lemma ToggleTwiceRestores(m: Monitor)
    requires Consistent(m)
    ensures Consistent(TogglePause(m))
    ensures TogglePause(TogglePause(m)) == m
  {
  }

  /** Only a real change of the interval updates the timer; the guard does not change the outcome. */
  lemma IntervalChangeConsistent(m: Monitor, val: int)
    requires Consistent(m)
    ensures Consistent(OnIntervalChanged(m, val))
    ensures OnIntervalChanged(OnIntervalChanged(m, val), val) == OnIntervalChanged(m, val)
    ensures var ms := if val > 1 then val else 1;
      OnIntervalChanged(m, val) == m.(intervalMs := ms, timerMs := ms, title := WindowTitle(ms, m.paused))
  {
  }

  /** A filter survives being typed back into the search box unchanged. */
  lemma {:induction false} NormalizeFilterIdempotent(text: string)
    ensures NormalizeFilter(NormalizeFilter(text)) == NormalizeFilter(text)
  {
    var f := NormalizeFilter(text);
    StripKeeps(f);
    assert Strip(f) == f;
    LowerOfLower(f);
    assert Lower(Strip(f)) == f;
  }

  /**
   * The filters a search can store are exactly the texts without upper-case
   * letters and without surrounding whitespace: those, and only those, are
   * kept as typed.
   */
  lemma {:induction false} NormalizeFilterFixpoints(text: string)
    ensures NormalizeFilter(text) == text ==>
      (forall i :: 0 <= i < |text| ==> !IsUpper(text[i])) && (text == [] || (!IsSpace(text[0]) && !IsSpace(text[|text| - 1])))
    ensures (forall i :: 0 <= i < |text| ==> !IsUpper(text[i])) && (text == [] || (!IsSpace(text[0]) && !IsSpace(text[|text| - 1])))
      ==> NormalizeFilter(text) == text
  {
    if (forall i :: 0 <= i < |text| ==> !IsUpper(text[i])) && (text == [] || (!IsSpace(text[0]) && !IsSpace(text[|text| - 1]))) {
      StripKeeps(text);
      LowerOfLower(text);
    }
  }

  /** While paused a search only records its filter; the process tree is untouched. */
  lemma PausedSearchDoesNotRefresh(m: Monitor, text: string, cpuCount: Option<nat>,
                                   threadsOf: nat -> Option<seq<nat>>)
    requires Valid(m) && m.paused
    ensures OnProcSearchChanged(m, text, cpuCount, threadsOf) == m.(proc := m.proc.(filter := NormalizeFilter(text)))
  {
  }
}
