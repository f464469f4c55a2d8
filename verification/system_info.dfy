/**
 * The text parsing and filtering inside the system-information helpers:
 * the CPU model name, the memory frequency, per-core frequencies and the CPU
 * and GPU temperatures, and the memoisation of the two static facts.
 *
 * Files, tool runs and psutil answers are inputs: a tool run is
 * `Some(ToolRun(code, stdout))`, or `None` when `subprocess.run` raised.
 */
module SystemInfo {
  import opened Wrappers
  import opened Text
  import Cache
  import GpuProvider
  import Seqs

  datatype Os = Linux | Darwin | Windows | OtherOs

  /** A finished tool run: its exit code and its standard output. */
  datatype ToolRun = ToolRun(returnCode: int, stdout: string)

  // ---------------------------------------------------------------- CPU model name

  /** A value after "model name:" worth returning: non-empty and not an architecture string. */
  predicate UsableModel(model: string) {
    model != [] && !StartsWith(model, "x86")
  }

  predicate MentionsModelName(line: string) {
    Contains(Lower(line), "model name")
  }

  /** What the cpuinfo scan does with one line. */
  datatype Verdict =
    | Pass                    // go on with the next line
    | Found(model: string)    // return this model
    | Stop                    // `split(":", 1)[1]` raised: the scan ends with nothing

  /**
   * One cpuinfo line: a "model name" line (in any case) gives the stripped
   * text after its first ':' when that is usable, and raises when it has no ':'.
   */
  function LineVerdict(line: string): (v: Verdict)
    ensures v.Found? ==> UsableModel(v.model)
  {
    if !MentionsModelName(line) then Pass
    else match AfterFirst(line, ':')
      case None => Stop
      case Some(rest) => if UsableModel(Strip(rest)) then Found(Strip(rest)) else Pass
  }

  /** The `/proc/cpuinfo` scan: lines are taken in order until one is found or stops the scan. */
  function ModelFromCpuinfo(lines: seq<string>): (r: Option<string>)
    ensures r.Some? ==> UsableModel(r.value)
    decreases |lines|
  {
    if lines == [] then None
    else match LineVerdict(lines[0])
      case Pass => ModelFromCpuinfo(lines[1..])
      case Found(model) => Some(model)
      case Stop => None
  }

  /** The architecture strings `platform.processor()` may return instead of a model. */
  const ArchNames: seq<string> := ["x86_64", "i386", "i686", "amd64", "arm64", "aarch64"]

  /**
   * The `platform.processor()` fallback: its stripped value unless that is
   * empty or an architecture string (in any case), else `"<machine> CPU"`.
   */
  function FromProcessor(proc: string, machine: string): (r: string)
    ensures r != []
    ensures Lower(r) !in ArchNames
    ensures r == Strip(proc) || r == machine + " CPU"
  {
    var p := Strip(proc);
    if p != [] && Lower(p) !in ArchNames then p
    else
      var r := machine + " CPU";
      assert Lower(r)[|r| - 4] == ' ';
      SpacedNotArch(Lower(r));
      r
  }

  /** No architecture string contains a space. */
  lemma SpacedNotArch(s: string)
    requires ' ' in s
    ensures s !in ArchNames
  {
    forall a | a in ArchNames ensures ' ' !in a {
    }
  }

  /** The Windows `wmic cpu get name` output: its third line, stripped, when non-empty. */
  function WmicCpuName(stdout: string): (r: Option<string>)
    ensures r.Some? ==> r.value != [] && Strip(r.value) == r.value
  {
    var lines := SplitOn(Strip(stdout), '\n');
    if |lines| > 2 && Strip(lines[2]) != [] then
      StripKeeps(Strip(lines[2]));
      Some(Strip(lines[2]))
    else None
  }

  /** What the operating system's own source gave, if anything. */
  function OsSpecificName(os: Os, cpuinfo: Option<seq<string>>, tool: Option<ToolRun>): (r: Option<string>)
    ensures r.Some? ==> r.value != []
    ensures os == OtherOs ==> r.None?
  {
    match os
    case Linux => if cpuinfo.Some? then ModelFromCpuinfo(cpuinfo.value) else None
    case Darwin =>
      if tool.Some? && tool.value.returnCode == 0 && Strip(tool.value.stdout) != [] then
        Some(Strip(tool.value.stdout))
      else None
    case Windows =>
      if tool.Some? && tool.value.returnCode == 0 then WmicCpuName(tool.value.stdout) else None
    case OtherOs => None
  }

  /**
   * `get_cpu_model_name()` undecorated. `cpuinfo` is the file's lines (None
   * when it cannot be read), `tool` the sysctl or wmic run, `processor` the
   * value of `platform.processor()` (None when the platform calls raise).
   */
  function CpuModelName(os: Os, cpuinfo: Option<seq<string>>, tool: Option<ToolRun>,
                        processor: Option<string>, machine: string): (r: string)
    ensures r != []
    ensures OsSpecificName(os, cpuinfo, tool).Some? ==> r == OsSpecificName(os, cpuinfo, tool).value
    ensures OsSpecificName(os, cpuinfo, tool).None? && processor.None? ==> r == "Unknown CPU"
    ensures OsSpecificName(os, cpuinfo, tool).None? && processor.Some? ==>
      r == FromProcessor(processor.value, machine) && Lower(r) !in ArchNames
  {
    match OsSpecificName(os, cpuinfo, tool)
    case Some(name) => name
    case None => if processor.Some? then FromProcessor(processor.value, machine) else "Unknown CPU"
  }

  // ---------------------------------------------------------------- memory frequency

  predicate IsSpeedLine(line: string) {
    Contains(line, "Speed:") && Contains(line, "MHz")
  }

  /** The index of the first line holding both "Speed:" and "MHz". */
  function FirstSpeedLine(lines: seq<string>): (i: Option<nat>)
    ensures i.Some? ==> i.value < |lines| && IsSpeedLine(lines[i.value])
    ensures i.Some? ==> forall j :: 0 <= j < i.value ==> !IsSpeedLine(lines[j])
    ensures i.None? ==> forall j :: 0 <= j < |lines| ==> !IsSpeedLine(lines[j])
    decreases |lines|
  {
    if lines == [] then None
    else if IsSpeedLine(lines[0]) then Some(0)
    else match FirstSpeedLine(lines[1..])
      case None => None
      case Some(k) => Some(k + 1)
  }

  /** `float(line.split(":")[1].strip().split()[0])`; None when that raises. */
  function SpeedOf(line: string, parse: string -> Option<real>): (r: Option<real>)
    requires IsSpeedLine(line)
  {
    assert ':' in line by {
      var k :| 0 <= k <= |line| - 6 && SliceAt(line, k, "Speed:");
      assert line[k + 5] == ':';
    }
    var parts := SplitOn(line, ':');
    var ws := Words(Strip(parts[1]));
    if ws == [] then None else parse(ws[0])
  }

  /**
   * The `dmidecode -t memory` scan: the first speed line decides, and it
   * either parses or raises (both end the scan).
   */
  function DmidecodeSpeed(stdout: string, parse: string -> Option<real>): (r: Option<real>)
    ensures (forall l :: l in SplitOn(stdout, '\n') ==> !IsSpeedLine(l)) ==> r.None?
  {
    var lines := SplitOn(stdout, '\n');
    match FirstSpeedLine(lines)
    case None => None
    case Some(i) => SpeedOf(lines[i], parse)
  }

  /** The Windows `wmic memorychip get speed` output: its second line, when all digits. */
  function WmicSpeed(stdout: string): (r: Option<real>)
    ensures r.Some? ==> r.value >= 0.0
    ensures r.None? <==>
      !(|SplitOn(Strip(stdout), '\n')| > 1 && IsDigits(Strip(SplitOn(Strip(stdout), '\n')[1])))
  {
    var lines := SplitOn(Strip(stdout), '\n');
    if |lines| > 1 && IsDigits(Strip(lines[1])) then Some(DigitsValue(Strip(lines[1])) as real) else None
  }

  /** `get_memory_frequency()` undecorated: MHz, or 0.0 when no source gives a value. */
  function MemoryFrequency(os: Os, tool: Option<ToolRun>, parse: string -> Option<real>): (mhz: real)
    ensures os != Linux && os != Windows ==> mhz == 0.0
    ensures tool.None? || tool.value.returnCode != 0 ==> mhz == 0.0
    ensures os == Linux && tool.Some? && tool.value.returnCode == 0 ==>
      mhz == DmidecodeSpeed(tool.value.stdout, parse).GetOr(0.0)
    ensures os == Windows && tool.Some? && tool.value.returnCode == 0 ==>
      mhz == WmicSpeed(tool.value.stdout).GetOr(0.0)
  {
    if tool.None? || tool.value.returnCode != 0 then 0.0
    else match os
      case Linux => DmidecodeSpeed(tool.value.stdout, parse).GetOr(0.0)
      case Windows => WmicSpeed(tool.value.stdout).GetOr(0.0)
      case _ => 0.0
  }

  // ---------------------------------------------------------------- per-core frequencies

  /**
   * `get_per_core_frequencies()`: `reply` is psutil's per-CPU list, each entry
   * its `current` value or None when it has none; `None` when the call raised
   * or did not give a list. Entries without a value are skipped.
   */
  function PerCoreFrequencies(reply: Option<seq<Option<real>>>): (r: seq<real>)
    ensures reply.None? ==> r == []
    ensures reply.Some? ==> |r| <= |reply.value|
    ensures reply.Some? ==> r == Seqs.Apply(Seqs.Filter(reply.value, HasValue), ValueOf)
  {
    if reply.None? then [] else Present(reply.value)
  }

  /** A per-CPU entry that has a `current` attribute. */
  predicate HasValue(entry: Option<real>) { entry.Some? }

  /** The `current` value of an entry that has one. */
  function ValueOf(entry: Option<real>): real { entry.GetOr(0.0) }

  /** `[f.current for f in freq if hasattr(f, 'current')]` */
  function Present(entries: seq<Option<real>>): (r: seq<real>)
    ensures |r| <= |entries|
    ensures r == Seqs.Apply(Seqs.Filter(entries, HasValue), ValueOf)
    decreases |entries|
  {
    if entries == [] then []
    else
      var init, last := entries[..|entries| - 1], entries[|entries| - 1];
      assert entries == init + [last];
      Seqs.FilterAppendLast(init, last, HasValue);
      Seqs.ApplyAppendLast(Seqs.Filter(init, HasValue), last, ValueOf);
      Present(init) + (if last.Some? then [last.value] else [])
  }

  // ---------------------------------------------------------------- temperatures

  /** One psutil sensor reading. */
  datatype SensorEntry = SensorEntry(title: string, current: real)

  /** One reported CPU temperature. */
  datatype CpuTemp = CpuTemp(title: string, celsius: real)

  /** The sensor groups read as CPU temperatures, in reading order. */
  const CpuSensorGroups: seq<string> := ["coretemp", "k10temp", "cpu_thermal", "cpu-thermal"]

  /** A reading that is reported: `entry.current > 0`. */
  predicate IsHot(e: SensorEntry) { e.current > 0.0 }

  /** The reported pair `(entry.label or name, entry.current)`. */
  function Labelled(group: string, e: SensorEntry): CpuTemp {
    CpuTemp(if e.title != [] then e.title else group, e.current)
  }

  /**
   * The positive readings of one group, in order; an empty label becomes the
   * group name (`entry.label or name`).
   */
  function GroupTemps(group: string, entries: seq<SensorEntry>): (r: seq<CpuTemp>)
    ensures |r| == |Seqs.Filter(entries, IsHot)|
    ensures forall k :: 0 <= k < |r| ==> r[k] == Labelled(group, Seqs.Filter(entries, IsHot)[k])
    ensures forall k :: 0 <= k < |r| ==> r[k].celsius > 0.0
    ensures group != [] ==> forall k :: 0 <= k < |r| ==> r[k].title != []
    decreases |entries|
  {
    if entries == [] then []
    else
      var init, e := entries[..|entries| - 1], entries[|entries| - 1];
      assert entries == init + [e];
      Seqs.FilterAppendLast(init, e, IsHot);
      GroupTemps(group, init) + (if e.current > 0.0 then [Labelled(group, e)] else [])
  }

  /** What one group contributes: its readings when psutil reports the group, nothing otherwise. */
  function InGroup(sensors: map<string, seq<SensorEntry>>, group: string): seq<CpuTemp> {
    if group in sensors then GroupTemps(group, sensors[group]) else []
  }

  /** The readings of `groups`, in order; a group missing from `sensors` adds nothing. */
  function FromGroups(sensors: map<string, seq<SensorEntry>>, groups: seq<string>): (r: seq<CpuTemp>)
    requires forall i :: 0 <= i < |groups| ==> groups[i] != []
    ensures forall k :: 0 <= k < |r| ==> r[k].celsius > 0.0 && r[k].title != []
    decreases |groups|
  {
    if groups == [] then []
    else
      var g := groups[|groups| - 1];
      var a := FromGroups(sensors, groups[..|groups| - 1]);
      var b := InGroup(sensors, g);
      assert forall k :: |a| <= k < |a + b| ==> (a + b)[k] == b[k - |a|];
      a + b
  }

  /**
   * `get_cpu_temperatures()`: `sensors` is psutil's readings by group, or None
   * when the call is missing or raised.
   */
  function CpuTemperatures(sensors: Option<map<string, seq<SensorEntry>>>): (r: seq<CpuTemp>)
    ensures sensors.None? ==> r == []
    ensures forall k :: 0 <= k < |r| ==> r[k].celsius > 0.0 && r[k].title != []
    ensures sensors.Some? ==>
      r == InGroup(sensors.value, "coretemp") + InGroup(sensors.value, "k10temp")
           + InGroup(sensors.value, "cpu_thermal") + InGroup(sensors.value, "cpu-thermal")
  {
    if sensors.None? then []
    else
      var s := sensors.value;
      var gs := CpuSensorGroups;
      assert gs == [gs[0]] + [gs[1]] + [gs[2]] + [gs[3]];
      FromGroupsAppend(s, [gs[0]] + [gs[1]] + [gs[2]], [gs[3]]);
      FromGroupsAppend(s, [gs[0]] + [gs[1]], [gs[2]]);
      FromGroupsAppend(s, [gs[0]], [gs[1]]);
      FromGroupsOne(s, gs[0]);
      FromGroupsOne(s, gs[1]);
      FromGroupsOne(s, gs[2]);
      FromGroupsOne(s, gs[3]);
      FromGroups(s, gs)
  }

  /** The groups are read in order: reading `a` then `b` is reading `a + b`. */
  lemma {:induction false} FromGroupsAppend(sensors: map<string, seq<SensorEntry>>, a: seq<string>, b: seq<string>)
    requires forall i :: 0 <= i < |a| ==> a[i] != []
    requires forall i :: 0 <= i < |b| ==> b[i] != []
    ensures forall i :: 0 <= i < |a + b| ==> (a + b)[i] != []
    ensures FromGroups(sensors, a + b) == FromGroups(sensors, a) + FromGroups(sensors, b)
    decreases |b|
  {
    assert forall i :: 0 <= i < |a + b| ==> (a + b)[i] != [] by {
      forall i | 0 <= i < |a + b| ensures (a + b)[i] != [] {
        if i < |a| { assert (a + b)[i] == a[i]; } else { assert (a + b)[i] == b[i - |a|]; }
      }
    }
    if b == [] {
      assert a + b == a;
    } else {
      var b' := b[..|b| - 1];
      assert (a + b)[..|a + b| - 1] == a + b';
      assert (a + b)[|a + b| - 1] == b[|b| - 1];
      FromGroupsAppend(sensors, a, b');
    }
  }

  /** A single group contributes exactly its own readings. */
  lemma FromGroupsOne(sensors: map<string, seq<SensorEntry>>, g: string)
    requires g != []
    ensures FromGroups(sensors, [g]) == InGroup(sensors, g)
  {
    assert [g][..0] == [];
  }

  /**
   * `get_gpu_temperatures(provider)`: one reading per NVML handle (0.0 for a
   * device whose call raised), one per line of the tool's output, or none.
   */
  function GpuTemperatures(p: GpuProvider.Provider, temp: nat -> Option<real>, smiRun: Option<string>,
                           parse: string -> Option<real>): (r: seq<real>)
    ensures p.backend == GpuProvider.NoBackend ==> r == []
    ensures p.backend == GpuProvider.Nvml ==> r == GpuProvider.PerHandle(p.handles, temp, 0.0)
    ensures p.backend == GpuProvider.NvidiaSmi && smiRun.None? ==> r == []
    ensures p.backend == GpuProvider.NvidiaSmi && smiRun.Some? ==>
      r == GpuProvider.ParseReadings(smiRun.value, parse)
  {
    match p.backend
    case Nvml => GpuProvider.PerHandle(p.handles, temp, 0.0)
    case NvidiaSmi => if smiRun.Some? then GpuProvider.ParseReadings(smiRun.value, parse) else []
    case NoBackend => []
  }

  // ---------------------------------------------------------------- memoisation

  /** `get_cpu_model_name()` as decorated: cached under "cpu_model_name". */
  function CachedCpuModelName(reg: Cache.Registry, name: string): (res: (Cache.Registry, Cache.Value, bool))
    requires Cache.Valid(reg)
    ensures Cache.Valid(res.0)
    ensures res == Cache.CachedStaticProperty(reg, "cpu_model_name", Cache.Str(name))
    ensures reg.current.None? ==> res.1 == Cache.Str(name) && res.2
    ensures reg.current.Some? && "cpu_model_name" in reg.stores[reg.current.value] ==>
      res == (reg, reg.stores[reg.current.value]["cpu_model_name"], false)
  {
    Cache.CachedStaticProperty(reg, "cpu_model_name", Cache.Str(name))
  }

  /** `get_memory_frequency()` as decorated: cached under "memory_frequency". */
  function CachedMemoryFrequency(reg: Cache.Registry, mhz: real): (res: (Cache.Registry, Cache.Value, bool))
    requires Cache.Valid(reg)
    ensures Cache.Valid(res.0)
    ensures res == Cache.CachedStaticProperty(reg, "memory_frequency", Cache.Number(mhz))
    ensures reg.current.None? ==> res.1 == Cache.Number(mhz) && res.2
    ensures reg.current.Some? && "memory_frequency" in reg.stores[reg.current.value] ==>
      res == (reg, reg.stores[reg.current.value]["memory_frequency"], false)
  {
    Cache.CachedStaticProperty(reg, "memory_frequency", Cache.Number(mhz))
  }

  // ---------------------------------------------------------------- properties

  /**
   * A line is found exactly when it names the model with a usable value
   * after its first ':', and stops the scan exactly when it names the model
   * without any ':'.
   */
  lemma LineVerdictMeaning(line: string)
    ensures LineVerdict(line).Found? <==>
      MentionsModelName(line) && ':' in line && UsableModel(Strip(AfterFirst(line, ':').value))
    ensures LineVerdict(line).Found? ==> LineVerdict(line).model == Strip(AfterFirst(line, ':').value)
    ensures LineVerdict(line).Stop? <==> MentionsModelName(line) && ':' !in line
  {
  }

  /** The scan returns the first usable "model name" value when every earlier line was passed over. */
  lemma {:induction false} CpuinfoFirstFound(lines: seq<string>, k: nat)
    requires k < |lines| && LineVerdict(lines[k]).Found?
    requires forall i :: 0 <= i < k ==> PassesAt(lines, i)
    ensures ModelFromCpuinfo(lines) == Some(LineVerdict(lines[k]).model)
    decreases k
  {
    if k > 0 {
      PassesShift(lines, k);
      assert lines[1..][k - 1] == lines[k];
      CpuinfoFirstFound(lines[1..], k - 1);
      assert PassesAt(lines, 0);
      assert ModelFromCpuinfo(lines) == ModelFromCpuinfo(lines[1..]);
    } else {
      assert LineVerdict(lines[0]).Found?;
    }
  }

  /** The scan passes over line `i`. */
  predicate PassesAt(lines: seq<string>, i: nat)
    requires i < |lines|
  {
    LineVerdict(lines[i]).Pass?
  }

  lemma PassesShift(lines: seq<string>, k: nat)
    requires 0 < k <= |lines| && forall i :: 0 <= i < k ==> PassesAt(lines, i)
    ensures forall i :: 0 <= i < k - 1 ==> PassesAt(lines[1..], i)
  {
    forall i | 0 <= i < k - 1
      ensures PassesAt(lines[1..], i)
    {
      assert lines[1..][i] == lines[i + 1];
      assert PassesAt(lines, i + 1);
    }
  }

  /** When the scan passes over every line, it finds nothing. */
  lemma {:induction false} CpuinfoNothingFound(lines: seq<string>)
    requires forall i :: 0 <= i < |lines| ==> PassesAt(lines, i)
    ensures ModelFromCpuinfo(lines).None?
    decreases |lines|
  {
    if lines != [] {
      if |lines| > 1 {
        PassesShift(lines, |lines|);
      }
      CpuinfoNothingFound(lines[1..]);
      assert PassesAt(lines, 0);
    }
  }

  /** A "model name" line without ':' ends the scan with no result. */
  lemma {:induction false} CpuinfoColonlessLineStops(lines: seq<string>, k: nat)
    requires k < |lines| && MentionsModelName(lines[k]) && ':' !in lines[k]
    requires forall i :: 0 <= i < k ==> PassesAt(lines, i)
    ensures ModelFromCpuinfo(lines).None?
    decreases k
  {
    if k > 0 {
      PassesShift(lines, k);
      assert lines[1..][k - 1] == lines[k];
      CpuinfoColonlessLineStops(lines[1..], k - 1);
      assert PassesAt(lines, 0);
    } else {
      LineVerdictMeaning(lines[0]);
    }
  }

  /** The wmic output `Name`, a blank line, then the model: the model is read. */
  lemma WmicReadsThirdLine(header: string, name: string)
    requires header != [] && !IsSpace(header[0]) && '\n' !in header
    requires name != [] && Strip(name) == name && '\n' !in name
    ensures WmicCpuName(header + "\n\n" + name + "\n") == Some(name)
  {
    WmicLines(header, name);
  }

  /** The wmic output `Speed`, then the speed in MHz: that speed is read. */
  lemma WmicReadsSpeed(header: string, speed: nat)
    requires header != [] && !IsSpace(header[0]) && '\n' !in header
    ensures WmicSpeed(header + "\n" + NatToString(speed) + "\n") == Some(speed as real)
  {
    var digits := NatToString(speed);
    WmicSpeedLines(header, digits);
    assert Strip(digits) == digits by {
      StripKeeps(digits);
    }
    NatToStringRoundTrip(speed);
  }

  lemma WmicSpeedLines(header: string, digits: string)
    requires header != [] && !IsSpace(header[0]) && '\n' !in header
    requires IsDigits(digits)
    ensures SplitOn(Strip(header + "\n" + digits + "\n"), '\n') == [header, digits]
  {
    var body := Join([header, digits], '\n');
    assert body == header + "\n" + digits by {
      JoinCons(header, [digits], '\n');
    }
    assert '\n' !in digits by {
      assert forall i :: 0 <= i < |digits| ==> IsDigitChar(digits[i]);
    }
    assert Strip(body + "\n") == body by {
      assert !IsSpace(body[0]) && !IsSpace(body[|body| - 1]);
      StripKeeps(body);
    }
    assert SplitOn(body, '\n') == [header, digits] by {
      JoinSplit([header, digits], '\n');
    }
    assert body + "\n" == header + "\n" + digits + "\n";
  }

  lemma WmicLines(header: string, name: string)
    requires header != [] && !IsSpace(header[0]) && '\n' !in header
    requires name != [] && Strip(name) == name && '\n' !in name
    ensures SplitOn(Strip(header + "\n\n" + name + "\n"), '\n') == [header, "", name]
  {
    var body := Join([header, "", name], '\n');
    assert body == header + "\n\n" + name by {
      JoinThree(header, "", name, '\n');
    }
    assert Strip(body + "\n") == body by {
      assert !IsSpace(body[0]) && !IsSpace(body[|body| - 1]);
      StripKeeps(body);
    }
    assert SplitOn(body, '\n') == [header, "", name] by {
      JoinSplit([header, "", name], '\n');
    }
    assert body + "\n" == header + "\n\n" + name + "\n";
  }

  lemma JoinThree(a: string, b: string, c: string, sep: char)
    ensures Join([a, b, c], sep) == a + [sep] + b + [sep] + c
  {
    assert [a, b, c][1..] == [b, c];
    assert [b, c][1..] == [c];
    assert Join([c], sep) == c;
    assert Join([b, c], sep) == b + [sep] + c;
  }

  /**
   * The first speed line `<indent>Speed: <value> MHz` gives `float(value)`,
   * whatever follows it.
   */
  lemma DmidecodeReadsFirstSpeed(lines: seq<string>, k: nat, indent: string, value: string,
                                 v: real, parse: string -> Option<real>)
    requires |lines| >= 1 && forall i :: 0 <= i < |lines| ==> '\n' !in lines[i]
    requires k < |lines| && lines[k] == indent + "Speed: " + value + " MHz"
    requires forall i :: 0 <= i < k ==> !IsSpeedLine(lines[i])
    requires ':' !in indent && IsWord(value) && ':' !in value && parse(value) == Some(v)
    ensures DmidecodeSpeed(Join(lines, '\n'), parse) == Some(v)
  {
    JoinSplit(lines, '\n');
    SpeedOfLine(indent, value, v, parse);
    FirstSpeedAt(lines, k);
  }

  /** The scan stops at the first speed line. */
  lemma FirstSpeedAt(lines: seq<string>, k: nat)
    requires k < |lines| && IsSpeedLine(lines[k])
    requires forall i :: 0 <= i < k ==> !IsSpeedLine(lines[i])
    ensures FirstSpeedLine(lines) == Some(k)
  {
    var r := FirstSpeedLine(lines);
    assert r.Some? ==> r.value >= k;
  }

  lemma SpeedOfLine(indent: string, value: string, v: real, parse: string -> Option<real>)
    requires ':' !in indent && IsWord(value) && ':' !in value && parse(value) == Some(v)
    ensures var line := indent + "Speed: " + value + " MHz";
      IsSpeedLine(line) && SpeedOf(line, parse) == Some(v)
  {
    var line := indent + "Speed: " + value + " MHz";
    SpeedLineShape(indent, value);
    ValueWord(value);
  }

  lemma SpeedLineShape(indent: string, value: string)
    requires ':' !in indent && ':' !in value
    ensures var line := indent + "Speed: " + value + " MHz";
      IsSpeedLine(line) && SplitOn(line, ':') == [indent + "Speed", " " + value + " MHz"]
  {
    var line := indent + "Speed: " + value + " MHz";
    var head := indent + "Speed";
    var tail := " " + value + " MHz";
    assert line == head + [':'] + tail;
    assert SliceAt(line, |indent|, "Speed:");
    assert SliceAt(line, |line| - 3, "MHz");
    assert ':' !in tail;
    JoinSplit([head, tail], ':');
    assert Join([head, tail], ':') == line;
  }

  lemma ValueWord(value: string)
    requires IsWord(value)
    ensures var ws := Words(Strip(" " + value + " MHz")); |ws| > 0 && ws[0] == value
  {
    var u := value + " MHz";
    assert u[0] == value[0];
    assert u[|u| - 1] == 'z';
    StripOneSpace(u);
    assert " " + value + " MHz" == " " + u;
    assert u == value + " " + "MHz";
    WordsCons(value, "MHz");
  }

  /** Entries that all carry a value are reported in full and in order. */
  lemma {:induction false} AllPresentKept(entries: seq<Option<real>>)
    requires forall i :: 0 <= i < |entries| ==> entries[i].Some?
    ensures |Present(entries)| == |entries|
    ensures forall i :: 0 <= i < |entries| ==> Present(entries)[i] == entries[i].value
    decreases |entries|
  {
    if entries != [] {
      AllPresentKept(entries[..|entries| - 1]);
    }
  }

  /** A frequency is reported iff some per-CPU entry carries it; entries without one are skipped. */
  lemma {:induction false} PresentMembers(entries: seq<Option<real>>, x: real)
    ensures x in Present(entries) <==> Some(x) in entries
    decreases |entries|
  {
    if entries != [] {
      var init, last := entries[..|entries| - 1], entries[|entries| - 1];
      assert entries == init + [last];
      PresentMembers(init, x);
    }
  }

  /** Sensor groups other than the four CPU groups never affect the result. */
  lemma OtherGroupsIgnored(sensors: map<string, seq<SensorEntry>>, group: string, entries: seq<SensorEntry>)
    requires group !in CpuSensorGroups
    ensures CpuTemperatures(Some(sensors[group := entries])) == CpuTemperatures(Some(sensors))
  {
    FromGroupsIgnores(sensors, group, entries, CpuSensorGroups);
  }

  lemma {:induction false} FromGroupsIgnores(sensors: map<string, seq<SensorEntry>>, group: string,
                                             entries: seq<SensorEntry>, groups: seq<string>)
    requires forall i :: 0 <= i < |groups| ==> groups[i] != []
    requires group !in groups
    ensures FromGroups(sensors[group := entries], groups) == FromGroups(sensors, groups)
    decreases |groups|
  {
    if groups != [] {
      FromGroupsIgnores(sensors, group, entries, groups[..|groups| - 1]);
    }
  }

  /** A zero reading is dropped and an unlabelled one is named after its group. */
  lemma CpuTemperaturesExample()
    ensures CpuTemperatures(Some(map[
      "coretemp" := [SensorEntry("", 45.0), SensorEntry("Core 0", 0.0)],
      "acpitz" := [SensorEntry("", 30.0)]])) == [CpuTemp("coretemp", 45.0)]
  {
    var m := map[
      "coretemp" := [SensorEntry("", 45.0), SensorEntry("Core 0", 0.0)],
      "acpitz" := [SensorEntry("", 30.0)]];
    CoretempExample();
    assert InGroup(m, "coretemp") == [CpuTemp("coretemp", 45.0)];
    assert "k10temp" !in m && "cpu_thermal" !in m && "cpu-thermal" !in m;
  }

  lemma CoretempExample()
    ensures GroupTemps("coretemp", [SensorEntry("", 45.0), SensorEntry("Core 0", 0.0)]) == [CpuTemp("coretemp", 45.0)]
  {
    var es := [SensorEntry("", 45.0), SensorEntry("Core 0", 0.0)];
    assert es[..1] == [SensorEntry("", 45.0)];
    assert GroupTemps("coretemp", es[..1]) == [CpuTemp("coretemp", 45.0)] by {
      assert es[..1][..0] == [];
    }
  }

  /** With NVML there is one GPU temperature per GPU name. */
  lemma GpuTemperaturesPerGpu(p: GpuProvider.Provider, temp: nat -> Option<real>, smiRun: Option<string>,
                              parse: string -> Option<real>)
    requires GpuProvider.Valid(p) && p.backend == GpuProvider.Nvml
    ensures |GpuTemperatures(p, temp, smiRun, parse)| == |p.names|
  {
  }

  /** The model name is computed once; a later call returns it whatever the machine would now report. */
  lemma CpuModelNameComputedOnce(reg: Cache.Registry, first: string, second: string)
    requires Cache.Valid(reg)
    ensures var (reg1, v1, _) := CachedCpuModelName(reg, first);
      var (reg2, v2, ran) := CachedCpuModelName(reg1, second);
      v2 == v1 && !ran && reg2 == reg1
  {
    Cache.CachedPropertyFirstCallWins(reg, "cpu_model_name", Cache.Str(first), Cache.Str(second));
  }

  /** The memory frequency is computed once, likewise. */
  lemma MemoryFrequencyComputedOnce(reg: Cache.Registry, first: real, second: real)
    requires Cache.Valid(reg)
    ensures var (reg1, v1, _) := CachedMemoryFrequency(reg, first);
      var (reg2, v2, ran) := CachedMemoryFrequency(reg1, second);
      v2 == v1 && !ran && reg2 == reg1
  {
    Cache.CachedPropertyFirstCallWins(reg, "memory_frequency", Cache.Number(first), Cache.Number(second));
  }

  /** After a cache reset the model name is computed again. */
  lemma CpuModelNameAfterReset(reg: Cache.Registry, name: string)
    requires Cache.Valid(reg) && reg.current.Some?
    ensures var (_, v, ran) := CachedCpuModelName(Cache.Reset(reg), name); v == Cache.Str(name) && ran
  {
  }
}
