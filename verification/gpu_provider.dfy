/**
 * The GPU data provider (`GPUProvider`): which backend serves the readings
 * (NVML, the nvidia-smi tool, or none), the line parsers for the tool's
 * output, the accessors, and one round of the tool's background poll.
 *
 * NVML calls and tool runs are inputs. A tool run is `Some(stdout)`, or
 * `None` when `subprocess.run` raised. Python's `float` is the parameter
 * `parse`, which is `None` when it raises.
 */
module GpuProvider {
  import opened Wrappers
  import opened Text
  import opened Seqs

  datatype Backend = Nvml | NvidiaSmi | NoBackend

  /** VRAM of one GPU in MB. */
  datatype Vram = Vram(used: real, total: real)

  datatype Provider = Provider(
    backend: Backend,         // `method`
    names: seq<string>,       // `_gpu_names`
    handles: nat,             // `len(_nvml_handles)`
    smiUtils: seq<real>,      // `_last_smi_utils`
    smiVram: seq<Vram>,       // `_last_smi_vram`
    smiFreq: seq<real>        // `_last_smi_freq`
  )

  /** Bytes per MB in the NVML memory readings. */
  const MiB: real := 1048576.0

  /**
   * NVML handles exist only for the NVML backend, one per name; the tool's
   * cached lists are never empty while the tool backend is in use.
   */
  predicate Valid(p: Provider) {
    && (p.backend == Nvml ==> p.handles == |p.names| > 0)
    && (p.backend != Nvml ==> p.handles == 0)
    && (p.backend == NvidiaSmi ==>
          |p.names| > 0 && |p.smiUtils| > 0 && |p.smiVram| > 0 && |p.smiFreq| > 0)
  }

  // ---------------------------------------------------------------- parsers

  /** The lines every parser loops over: `out.strip().splitlines()`. */
  function Lines(out: string): (r: seq<string>)
    ensures forall i :: 0 <= i < |r| ==> IsLine(r[i])
    ensures r == [] <==> Strip(out) == []
  {
    SplitLines(Strip(out))
  }

  predicate NonEmpty(s: string) { s != [] }

  /** `_query_nvidia_smi_names`: the stripped non-empty lines, in order. */
  function ParseNames(out: string): (names: seq<string>)
    ensures |names| <= |Lines(out)|
    ensures forall i :: 0 <= i < |names| ==> names[i] != []
    ensures names == Filter(Apply(Lines(out), Strip), NonEmpty)
  {
    Filter(Apply(Lines(out), Strip), NonEmpty)
  }

  /** One numeric line: its parsed value, or 0.0 when `float` raises. */
  function Reading(line: string, parse: string -> Option<real>): real {
    parse(Strip(line)).GetOr(0.0)
  }

  /**
   * `_query_nvidia_smi_utils` and `_query_nvidia_smi_freq` (the same loop):
   * one value per output line, 0.0 for a line that does not parse.
   */
  function ParseReadings(out: string, parse: string -> Option<real>): (r: seq<real>)
    ensures |r| == |Lines(out)|
    ensures r == [] <==> Strip(out) == []
    ensures forall i :: 0 <= i < |r| && parse(Strip(Lines(out)[i])).None? ==> r[i] == 0.0
    ensures forall i :: 0 <= i < |r| && parse(Strip(Lines(out)[i])).Some? ==>
      r[i] == parse(Strip(Lines(out)[i])).value
  {
    Apply(Lines(out), (line: string) => Reading(line, parse))
  }

  /**
   * One line of `_query_nvidia_smi_vram`: the first two comma-separated
   * fields as (used, total); `(0.0, 0.0)` when there are fewer than two or
   * either does not parse.
   */
  function VramOf(line: string, parse: string -> Option<real>): (v: Vram)
    ensures v.used != 0.0 || v.total != 0.0 ==>
      var parts := SplitOn(Strip(line), ',');
      |parts| >= 2 && parse(Strip(parts[0])) == Some(v.used) && parse(Strip(parts[1])) == Some(v.total)
  {
    var parts := SplitOn(Strip(line), ',');
    if |parts| >= 2 && parse(Strip(parts[0])).Some? && parse(Strip(parts[1])).Some? then
      Vram(parse(Strip(parts[0])).value, parse(Strip(parts[1])).value)
    else Vram(0.0, 0.0)
  }

  /** `_query_nvidia_smi_vram`: one pair per output line. */
  function ParseVram(out: string, parse: string -> Option<real>): (r: seq<Vram>)
    ensures |r| == |Lines(out)|
    ensures r == [] <==> Strip(out) == []
    ensures forall i :: 0 <= i < |r| ==> r[i] == VramOf(Lines(out)[i], parse)
  {
    Apply(Lines(out), (line: string) => VramOf(line, parse))
  }

  // ---------------------------------------------------------------- backend choice

  /**
   * `GPUProvider()`. `nvmlNames` are the device names NVML returned before it
   * finished or raised, and `nvmlOk` says whether it finished; `smiFound` is
   * `shutil.which("nvidia-smi")` and `smiNames` the name query's output.
   */
  function Init(nvmlNames: seq<string>, nvmlOk: bool, smiFound: bool, smiNames: Option<string>): (p: Provider)
    ensures Valid(p)
    ensures p.backend == Nvml <==> nvmlOk && |nvmlNames| > 0
    ensures p.backend == NvidiaSmi <==>
      && !(nvmlOk && |nvmlNames| > 0)
      && smiFound && smiNames.Some? && |ParseNames(smiNames.value)| > 0
    ensures p.backend == Nvml ==> p.names == nvmlNames
    ensures p.backend == NvidiaSmi ==>
      && p.names == ParseNames(smiNames.value)
      && p.smiUtils == seq(|p.names|, _ => 0.0)
      && p.smiVram == seq(|p.names|, _ => Vram(0.0, 0.0))
      && p.smiFreq == seq(|p.names|, _ => 0.0)
    ensures p.backend == NoBackend ==> p.names == nvmlNames
  {
    var viaNvml := nvmlOk && |nvmlNames| > 0;
    var p0 := Provider(if viaNvml then Nvml else NoBackend, nvmlNames,
                       if viaNvml then |nvmlNames| else 0, [], [], []);
    if !viaNvml && smiFound && smiNames.Some? && |ParseNames(smiNames.value)| > 0 then
      var names := ParseNames(smiNames.value);
      Provider(NvidiaSmi, names, 0, seq(|names|, _ => 0.0), seq(|names|, _ => Vram(0.0, 0.0)),
               seq(|names|, _ => 0.0))
    else p0
  }

  // ---------------------------------------------------------------- accessors

  /** One NVML reading per handle; a device whose call raised (`None`) gives `fallback`. */
  function PerHandle<T>(handles: nat, read: nat -> Option<T>, fallback: T): (r: seq<T>)
    ensures |r| == handles
    ensures forall i :: 0 <= i < handles && read(i).None? ==> r[i] == fallback
    ensures forall i :: 0 <= i < handles && read(i).Some? ==> r[i] == read(i).value
  {
    seq(handles, i requires 0 <= i < handles => read(i).GetOr(fallback))
  }

  /** `gpu_names()`: a copy of the names, whatever the backend. */
  function GpuNames(p: Provider): (r: seq<string>)
    ensures r == p.names
  {
    p.names
  }

  /** `gpu_utils()`; `util(i)` is NVML's utilisation of handle `i`. */
  function GpuUtils(p: Provider, util: nat -> Option<real>): (r: seq<real>)
    ensures p.backend == NoBackend ==> r == []
    ensures p.backend == NvidiaSmi ==> r == p.smiUtils
    ensures p.backend == Nvml ==> r == PerHandle(p.handles, util, 0.0)
  {
    match p.backend
    case Nvml => PerHandle(p.handles, util, 0.0)
    case NvidiaSmi => p.smiUtils
    case NoBackend => []
  }

  /** `gpu_vram_info()`; `mem(i)` is NVML's (used, total) bytes of handle `i`, reported in MB. */
  function GpuVramInfo(p: Provider, mem: nat -> Option<(nat, nat)>): (r: seq<Vram>)
    ensures p.backend == NoBackend ==> r == []
    ensures p.backend == NvidiaSmi ==> r == p.smiVram
    ensures p.backend == Nvml ==> |r| == p.handles
    ensures p.backend == Nvml ==> forall i :: 0 <= i < p.handles ==>
      r[i] == (if mem(i).Some? then Vram(mem(i).value.0 as real / MiB, mem(i).value.1 as real / MiB)
               else Vram(0.0, 0.0))
  {
    match p.backend
    case Nvml =>
      var inMb := (i: nat) =>
        if mem(i).Some? then Some(Vram(mem(i).value.0 as real / MiB, mem(i).value.1 as real / MiB)) else None;
      PerHandle(p.handles, inMb, Vram(0.0, 0.0))
    case NvidiaSmi => p.smiVram
    case NoBackend => []
  }

  /** `gpu_frequencies()`; `clock(i)` is NVML's graphics clock of handle `i` in MHz. */
  function GpuFrequencies(p: Provider, clock: nat -> Option<real>): (r: seq<real>)
    ensures p.backend == NoBackend ==> r == []
    ensures p.backend == NvidiaSmi ==> r == p.smiFreq
    ensures p.backend == Nvml ==> r == PerHandle(p.handles, clock, 0.0)
  {
    match p.backend
    case Nvml => PerHandle(p.handles, clock, 0.0)
    case NvidiaSmi => p.smiFreq
    case NoBackend => []
  }

  // ---------------------------------------------------------------- poll loop

  /** The three tool runs of one poll round, in order; `None` means the run raised. */
  datatype Round = Round(utils: Option<string>, vram: Option<string>, freq: Option<string>)

  /** A cached list is replaced only by a non-empty new one. */
  function KeepUnlessEmpty<T>(cached: seq<T>, latest: seq<T>): (r: seq<T>)
    ensures latest != [] ==> r == latest
    ensures latest == [] ==> r == cached
  {
    if latest != [] then latest else cached
  }

  /**
   * One iteration of `_smi_poll_loop`: utilisation, then VRAM, then clocks;
   * a non-empty result replaces its cached list, and a run that raises
   * abandons the rest of the round (the lists already replaced stay replaced).
   */
  function PollOnce(p: Provider, round: Round, parse: string -> Option<real>): (p': Provider)
    ensures p'.backend == p.backend && p'.names == p.names && p'.handles == p.handles
    ensures round.utils.None? ==> p' == p
    ensures round.utils.Some? ==> p'.smiUtils == KeepUnlessEmpty(p.smiUtils, ParseReadings(round.utils.value, parse))
    ensures round.utils.None? || round.vram.None? ==> p'.smiVram == p.smiVram
    ensures round.utils.Some? && round.vram.Some? ==>
      p'.smiVram == KeepUnlessEmpty(p.smiVram, ParseVram(round.vram.value, parse))
    ensures round.utils.None? || round.vram.None? || round.freq.None? ==> p'.smiFreq == p.smiFreq
    ensures round.utils.Some? && round.vram.Some? && round.freq.Some? ==>
      p'.smiFreq == KeepUnlessEmpty(p.smiFreq, ParseReadings(round.freq.value, parse))
  {
    if round.utils.None? then p
    else
      var p1 := p.(smiUtils := KeepUnlessEmpty(p.smiUtils, ParseReadings(round.utils.value, parse)));
      if round.vram.None? then p1
      else
        var p2 := p1.(smiVram := KeepUnlessEmpty(p1.smiVram, ParseVram(round.vram.value, parse)));
        if round.freq.None? then p2
        else p2.(smiFreq := KeepUnlessEmpty(p2.smiFreq, ParseReadings(round.freq.value, parse)))
  }

  /** The poll loop run for the given rounds, oldest first. */
  function Poll(p: Provider, rounds: seq<Round>, parse: string -> Option<real>): (q: Provider)
    ensures q.backend == p.backend && q.names == p.names && q.handles == p.handles
    ensures |rounds| > 0 && rounds[|rounds| - 1] == Round(Some(""), Some(""), Some("")) ==>
      q == Poll(p, rounds[..|rounds| - 1], parse)
    decreases |rounds|
  {
    if rounds == [] then p else PollOnce(Poll(p, rounds[..|rounds| - 1], parse), rounds[|rounds| - 1], parse)
  }

  // ---------------------------------------------------------------- properties

  /** A line as the tool prints it: non-empty, no line break, no surrounding whitespace. */
  predicate CleanLine(t: string) {
    t != [] && IsLine(t) && Strip(t) == t
  }

  /** The tool's output for clean lines `texts`: each followed by a newline. */
  function ToolOutput(texts: seq<string>): string {
    if texts == [] then [] else Join(texts, '\n') + "\n"
  }

  /** The parsers see exactly the lines the tool printed. */
  lemma {:induction false} ToolOutputLines(texts: seq<string>)
    requires forall i :: 0 <= i < |texts| ==> CleanLine(texts[i])
    ensures Lines(ToolOutput(texts)) == texts
  {
    if texts != [] {
      var s := Join(texts, '\n');
      var first := texts[0];
      var last := texts[|texts| - 1];
      JoinBounds(texts);
      assert !IsSpace(s[0]) && !IsSpace(s[|s| - 1]) by {
        assert Strip(first) == first && Strip(last) == last;
      }
      StripKeeps(s);
      SplitLinesJoin(texts);
    }
  }

  lemma {:induction false} JoinBounds(texts: seq<string>)
    requires texts != [] && texts[0] != [] && texts[|texts| - 1] != []
    ensures var s := Join(texts, '\n');
      |s| > 0 && s[0] == texts[0][0] && s[|s| - 1] == texts[|texts| - 1][|texts[|texts| - 1]| - 1]
    decreases |texts|
  {
    if |texts| > 1 {
      var rest := texts[1..];
      if |rest| > 1 {
        assert rest[0] == texts[1];
      }
      JoinBoundsTail(rest);
    }
  }

  lemma {:induction false} JoinBoundsTail(texts: seq<string>)
    requires texts != [] && texts[|texts| - 1] != []
    ensures var s := Join(texts, '\n');
      |s| > 0 && s[|s| - 1] == texts[|texts| - 1][|texts[|texts| - 1]| - 1]
    decreases |texts|
  {
    if |texts| > 1 {
      JoinBoundsTail(texts[1..]);
    }
  }

  /** Clean names printed one per line are parsed back, in order. */
  lemma NamesRoundTrip(names: seq<string>)
    requires forall i :: 0 <= i < |names| ==> CleanLine(names[i])
    ensures ParseNames(ToolOutput(names)) == names
  {
    ToolOutputLines(names);
    assert Apply(names, Strip) == names;
    FilterKeepsAll(names, NonEmpty);
  }

  /** For any output, a name is reported iff it is a non-empty stripped line of it. */
  lemma ParseNamesMembers(out: string, x: string)
    ensures x in ParseNames(out) <==>
      x != [] && exists i :: 0 <= i < |Lines(out)| && Strip(Lines(out)[i]) == x
  {
    var stripped := Apply(Lines(out), Strip);
    FilterMembers(stripped, NonEmpty, x);
    if x in stripped {
      var i :| 0 <= i < |stripped| && stripped[i] == x;
      assert Strip(Lines(out)[i]) == x;
    }
  }

  /** Numbers printed one per line are read back, in order. */
  lemma ReadingsRoundTrip(texts: seq<string>, values: seq<real>, parse: string -> Option<real>)
    requires |texts| == |values|
    requires forall i :: 0 <= i < |texts| ==> CleanLine(texts[i]) && parse(texts[i]) == Some(values[i])
    ensures ParseReadings(ToolOutput(texts), parse) == values
  {
    ToolOutputLines(texts);
  }

  /**
   * A VRAM line `used, total[, ...]`: spaces around the fields and any
   * further fields are ignored.
   */
  lemma {:induction false} VramLineFields(fields: seq<string>, parse: string -> Option<real>)
    requires |fields| >= 2
    requires forall i :: 0 <= i < |fields| ==> ',' !in fields[i]
    requires Strip(Join(fields, ',')) == Join(fields, ',')
    ensures var a := parse(Strip(fields[0]));
      var b := parse(Strip(fields[1]));
      VramOf(Join(fields, ','), parse)
        == (if a.Some? && b.Some? then Vram(a.value, b.value) else Vram(0.0, 0.0))
  {
    JoinSplit(fields, ',');
  }

  /**
   * VRAM rows printed one per line as `used, total` are read back, in order.
   * Neither field holds a comma; spaces around a field are ignored.
   */
  lemma VramRoundTrip(rows: seq<(string, string)>, values: seq<Vram>, parse: string -> Option<real>)
    requires |rows| == |values|
    requires forall i :: 0 <= i < |rows| ==> CleanLine(VramRow(rows[i]))
    requires forall i :: 0 <= i < |rows| ==> VramFieldsRead(rows[i], values[i], parse)
    ensures ParseVram(ToolOutput(Apply(rows, VramRow)), parse) == values
  {
    var lines := Apply(rows, VramRow);
    ToolOutputLines(lines);
    forall i | 0 <= i < |rows|
      ensures VramOf(lines[i], parse) == values[i]
    {
      VramRowRead(rows[i], values[i], parse);
    }
  }

  /** A VRAM row as nvidia-smi prints it: `used,total`. */
  function VramRow(row: (string, string)): string {
    row.0 + "," + row.1
  }

  /** The two fields of a row are comma-free and parse to the pair. */
  predicate VramFieldsRead(row: (string, string), v: Vram, parse: string -> Option<real>) {
    && ',' !in row.0 && ',' !in row.1
    && parse(Strip(row.0)) == Some(v.used)
    && parse(Strip(row.1)) == Some(v.total)
  }

  lemma VramRowRead(row: (string, string), v: Vram, parse: string -> Option<real>)
    requires CleanLine(VramRow(row)) && VramFieldsRead(row, v, parse)
    ensures VramOf(VramRow(row), parse) == v
  {
    var fields := [row.0, row.1];
    JoinCons(row.0, [row.1], ',');
    assert Join(fields, ',') == VramRow(row);
    VramLineFields(fields, parse);
  }

  /** A failed `float` on either field makes the pair `(0.0, 0.0)`; one field alone is not enough. */
  lemma VramOneField(field: string, parse: string -> Option<real>)
    requires ',' !in field && Strip(field) == field
    ensures VramOf(field, parse) == Vram(0.0, 0.0)
  {
    assert SplitOn(field, ',') == [field];
  }

  /** Without NVML, every accessor of a provider that found no tool is empty; with NVML, one entry per name. */
  lemma AccessorsPerGpu(p: Provider, util: nat -> Option<real>, mem: nat -> Option<(nat, nat)>,
                        clock: nat -> Option<real>)
    requires Valid(p) && p.backend != NvidiaSmi
    ensures var n := if p.backend == Nvml then |p.names| else 0;
      |GpuUtils(p, util)| == n && |GpuVramInfo(p, mem)| == n && |GpuFrequencies(p, clock)| == n
  {
  }

  /** Right after choosing the tool, every accessor has one zero entry per GPU name. */
  lemma ToolSeedsZeros(nvmlNames: seq<string>, smiNames: string, util: nat -> Option<real>,
                       mem: nat -> Option<(nat, nat)>, clock: nat -> Option<real>)
    requires |ParseNames(smiNames)| > 0
    ensures var p := Init(nvmlNames, false, true, Some(smiNames));
      && p.backend == NvidiaSmi
      && |GpuUtils(p, util)| == |p.names| && |GpuVramInfo(p, mem)| == |p.names|
      && |GpuFrequencies(p, clock)| == |p.names|
      && (forall i :: 0 <= i < |p.names| ==> GpuUtils(p, util)[i] == 0.0 && GpuFrequencies(p, clock)[i] == 0.0)
  {
  }

  /** A poll round keeps the provider valid: a cached list never becomes empty. */
  lemma PollOnceKeepsValid(p: Provider, round: Round, parse: string -> Option<real>)
    requires Valid(p)
    ensures Valid(PollOnce(p, round, parse))
  {
  }

  /** Any number of poll rounds keeps the provider valid and never changes the backend or the names. */
  lemma {:induction false} PollKeepsValid(p: Provider, rounds: seq<Round>, parse: string -> Option<real>)
    requires Valid(p)
    ensures Valid(Poll(p, rounds, parse))
    ensures Poll(p, rounds, parse).backend == p.backend && Poll(p, rounds, parse).names == p.names
    decreases |rounds|
  {
    if rounds != [] {
      PollKeepsValid(p, rounds[..|rounds| - 1], parse);
      PollOnceKeepsValid(Poll(p, rounds[..|rounds| - 1], parse), rounds[|rounds| - 1], parse);
    }
  }

  /** A round that leaves the cached utilisation alone: the query raised or printed nothing. */
  predicate UtilsQuiet(round: Round, parse: string -> Option<real>) {
    round.utils.None? || ParseReadings(round.utils.value, parse) == []
  }

  /**
   * The newest round whose utilisation query printed something decides the
   * cached utilisation list, whatever the rounds before it read.
   */
  lemma {:induction false} NewestUtilsWin(p: Provider, rounds: seq<Round>, k: nat, parse: string -> Option<real>)
    requires k < |rounds| && !UtilsQuiet(rounds[k], parse)
    requires forall j :: k < j < |rounds| ==> UtilsQuiet(rounds[j], parse)
    ensures Poll(p, rounds, parse).smiUtils == ParseReadings(rounds[k].utils.value, parse)
    decreases |rounds|
  {
    var init := rounds[..|rounds| - 1];
    if k < |rounds| - 1 {
      assert forall j :: k < j < |init| ==> init[j] == rounds[j];
      NewestUtilsWin(p, init, k, parse);
    }
  }

  /** Rounds that all leave the utilisation alone keep the cached list as it was. */
  lemma {:induction false} QuietRoundsKeepUtils(p: Provider, rounds: seq<Round>, parse: string -> Option<real>)
    requires forall j :: 0 <= j < |rounds| ==> UtilsQuiet(rounds[j], parse)
    ensures Poll(p, rounds, parse).smiUtils == p.smiUtils
    decreases |rounds|
  {
    if rounds != [] {
      var init := rounds[..|rounds| - 1];
      assert forall j :: 0 <= j < |init| ==> init[j] == rounds[j];
      QuietRoundsKeepUtils(p, init, parse);
    }
  }

  /** A round whose runs all print nothing leaves every cached list as it was. */
  lemma SilentRoundKeepsCache(p: Provider, parse: string -> Option<real>)
    ensures PollOnce(p, Round(Some(""), Some(""), Some("")), parse) == p
  {
    assert Strip("") == [];
  }
}
