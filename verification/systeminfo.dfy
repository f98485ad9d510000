/** The OLED add-on's system metrics: CPU temperature, CPU usage from two
    successive `/proc/stat` samples, memory usage from `/proc/meminfo`, and
    root-filesystem usage from `statvfs`.

    File contents are parameters (`None` when the file cannot be read), and
    arithmetic is exact over `real`. Every reading that raises in the
    source yields the same zero answer here. */
module SystemInfo {
  import opened Wrappers
  import opened Strings
  import opened Numbers

  // ---------------------------------------------------------------------
  // get_cpu_temp
  // ---------------------------------------------------------------------

  /** Celsius to Fahrenheit. */
  function Fahrenheit(celsius: real): real {
    celsius * 9.0 / 5.0 + 32.0
  }

  /** `get_cpu_temp`: the thermal zone reports millidegrees Celsius; the
      unit "F" converts, any other unit keeps Celsius; an unreadable or
      unparsable file reads as 0. */
  function GetCpuTemp(unit: string, file: Option<string>): (r: real)
    ensures file.None? ==> r == 0.0
    ensures file.Some? && ParseFloat(file.value).None? ==> r == 0.0
    ensures file.Some? && ParseFloat(file.value).Some? ==>
      var celsius := ParseFloat(file.value).value / 1000.0;
      r == if unit == "F" then Fahrenheit(celsius) else celsius
  {
    if file.None? then 0.0
    else
      match ParseFloat(file.value)
      case None => 0.0
      case Some(milli) =>
        var celsius := milli / 1000.0;
        if unit == "F" then Fahrenheit(celsius) else celsius
  }

  /** A whole number of millidegrees reads as that many thousandths of a
      degree Celsius, and the Fahrenheit reading is its conversion; "45000"
      reads as 45.0 and as 113.0. */
  lemma MillidegreeReading(n: nat)
    ensures GetCpuTemp("C", Some(ShowNat(n))) == n as real / 1000.0
    ensures GetCpuTemp("F", Some(ShowNat(n))) == Fahrenheit(n as real / 1000.0)
    ensures n == 45000 ==> GetCpuTemp("C", Some(ShowNat(n))) == 45.0 && GetCpuTemp("F", Some(ShowNat(n))) == 113.0
  {
    ParseFloatShowNat(n);
  }

  /** A hotter zone never reads cooler, in either unit. */
  lemma CpuTempMonotone(unit: string, a: nat, b: nat)
    requires a <= b
    ensures GetCpuTemp(unit, Some(ShowNat(a))) <= GetCpuTemp(unit, Some(ShowNat(b)))
  {
    ParseFloatShowNat(a);
    ParseFloatShowNat(b);
  }

  // ---------------------------------------------------------------------
  // get_cpu_usage
  // ---------------------------------------------------------------------

  /** The idle time and the total of all times on the `cpu` line. */
  datatype Sample = Sample(idle: real, total: real)

  /** `prev_idle` and `prev_total`, set together. */
  datatype CpuSampler = CpuSampler(prev: Option<Sample>)

  const FreshSampler: CpuSampler := CpuSampler(None)

  datatype CpuReading = CpuReading(usage: real, sampler: CpuSampler)

  /** `float(x)` of each text. */
  function ParseAll(xs: seq<string>): (r: seq<Option<real>>)
    ensures |r| == |xs|
  {
    seq(|xs|, i requires 0 <= i < |xs| => ParseFloat(xs[i]))
  }

  /** The sum of parsed values, `None` when some `float()` raised. */
  function SumParsed(parsed: seq<Option<real>>): (r: Option<real>)
    ensures r.Some? <==> forall i :: 0 <= i < |parsed| ==> parsed[i].Some?
  {
    if |parsed| == 0 then Some(0.0)
    else if parsed[0].None? then None
    else
      match SumParsed(parsed[1..])
      case None =>
        None
      case Some(rest) =>
        assert forall i :: 0 < i < |parsed| ==> parsed[i] == parsed[1..][i - 1];
        Some(parsed[0].value + rest)
  }

  /** `sum(float(x) for x in xs)`, `None` when some `float()` raises. */
  function SumFloats(xs: seq<string>): Option<real> {
    SumParsed(ParseAll(xs))
  }

  /** The first line of `/proc/stat`, split on whitespace: field 4 is the
      idle time and the total sums every field after the label. */
  function ParseStat(line: string): (r: Option<Sample>)
    ensures r.Some? ==> |Fields(line)| >= 5
  {
    var fields := Fields(line);
    if |fields| < 5 then None
    else
      match ParseFloat(fields[4])
      case None => None
      case Some(idle) =>
        match SumFloats(fields[1..])
        case None => None
        case Some(total) => Some(Sample(idle, total))
  }

  /** `100 * (1 - Δidle / Δtotal)` clamped into [0, 100], and 0 when no
      time has passed. */
  function Usage(prev: Sample, cur: Sample): (r: real)
    ensures 0.0 <= r <= 100.0
    ensures cur.total == prev.total ==> r == 0.0
    ensures cur.total != prev.total ==>
      var raw := 100.0 * (1.0 - (cur.idle - prev.idle) / (cur.total - prev.total));
      && (raw < 0.0 ==> r == 0.0)
      && (raw > 100.0 ==> r == 100.0)
      && (0.0 <= raw <= 100.0 ==> r == raw)
    ensures cur.total != prev.total && 0.0 <= cur.idle - prev.idle <= cur.total - prev.total ==>
      r == 100.0 * (1.0 - (cur.idle - prev.idle) / (cur.total - prev.total))
  {
    var diffIdle := cur.idle - prev.idle;
    var diffTotal := cur.total - prev.total;
    if diffTotal == 0.0 then 0.0
    else
      var raw := 100.0 * (1.0 - diffIdle / diffTotal);
      assert 0.0 <= diffIdle <= diffTotal ==> 0.0 <= diffIdle / diffTotal <= 1.0 by {
        if 0.0 <= diffIdle <= diffTotal {
          DivideWithin(diffIdle, diffTotal);
        }
      }
      ClampReal(0.0, 100.0, raw)
  }

  lemma DivideWithin(a: real, b: real)
    requires 0.0 <= a <= b && b != 0.0
    ensures 0.0 <= a / b <= 1.0
  {
  }

  /** `get_cpu_usage`: `line` is the first line of `/proc/stat`, `None`
      when it cannot be read. The first good sample is stored and reads as
      0; each later one is compared with the stored sample and replaces
      it. A line that does not parse leaves the sampler alone. */
  function GetCpuUsage(sampler: CpuSampler, line: Option<string>): (r: CpuReading)
    ensures 0.0 <= r.usage <= 100.0
    ensures line.None? || ParseStat(line.value).None? ==> r == CpuReading(0.0, sampler)
    ensures line.Some? && ParseStat(line.value).Some? ==>
      && r.sampler == CpuSampler(ParseStat(line.value))
      && r.usage == (if sampler.prev.None? then 0.0 else Usage(sampler.prev.value, ParseStat(line.value).value))
  {
    if line.None? then CpuReading(0.0, sampler)
    else
      match ParseStat(line.value)
      case None => CpuReading(0.0, sampler)
      case Some(cur) =>
        match sampler.prev
        case None => CpuReading(0.0, CpuSampler(Some(cur)))
        case Some(prev) => CpuReading(Usage(prev, cur), CpuSampler(Some(cur)))
  }

  /** `str(n)` of each number. */
  function ShowAll(ns: seq<nat>): (r: seq<string>)
    ensures |r| == |ns|
    ensures forall i :: 0 <= i < |ns| ==> r[i] == ShowNat(ns[i])
  {
    if |ns| == 0 then [] else [ShowNat(ns[0])] + ShowAll(ns[1..])
  }

  function SumNats(ns: seq<nat>): nat {
    if |ns| == 0 then 0 else ns[0] + SumNats(ns[1..])
  }

  function SumReals(vs: seq<real>): real {
    if |vs| == 0 then 0.0 else vs[0] + SumReals(vs[1..])
  }

  /** Values that all parsed sum to the sum of the values. */
  lemma {:induction false} SumParsedOfValues(vs: seq<real>)
    ensures SumParsed(seq(|vs|, i requires 0 <= i < |vs| => Some(vs[i]))) == Some(SumReals(vs))
  {
    if |vs| > 0 {
      SumParsedOfValues(vs[1..]);
      assert seq(|vs|, i requires 0 <= i < |vs| => Some(vs[i]))[1..]
          == seq(|vs[1..]|, i requires 0 <= i < |vs[1..]| => Some(vs[1..][i]));
    }
  }

  lemma {:induction false} SumRealsOfNats(ns: seq<nat>)
    ensures SumReals(seq(|ns|, i requires 0 <= i < |ns| => ns[i] as real)) == SumNats(ns) as real
  {
    if |ns| > 0 {
      SumRealsOfNats(ns[1..]);
      assert seq(|ns|, i requires 0 <= i < |ns| => ns[i] as real)[1..]
          == seq(|ns[1..]|, i requires 0 <= i < |ns[1..]| => ns[1..][i] as real);
    }
  }

  lemma SumFloatsShowAll(ns: seq<nat>)
    ensures SumFloats(ShowAll(ns)) == Some(SumNats(ns) as real)
  {
    var vs := seq(|ns|, i requires 0 <= i < |ns| => ns[i] as real);
    var parsed := ParseAll(ShowAll(ns));
    forall i | 0 <= i < |ns| ensures parsed[i] == Some(vs[i]) {
      ParseFloatShowNat(ns[i]);
    }
    assert parsed == seq(|vs|, i requires 0 <= i < |vs| => Some(vs[i]));
    SumParsedOfValues(vs);
    SumRealsOfNats(ns);
  }

  /** A stat line written as a label (such as `cpu`) and whole-number
      times reads back as the fourth time (the idle column) and the sum of
      all times; the label itself is never read. */
  lemma StatLineRoundTrip(tag: string, ns: seq<nat>)
    requires |tag| > 0 && NoSpace(tag)
    requires |ns| >= 4
    ensures ParseStat(Unwords([tag] + ShowAll(ns))) == Some(Sample(ns[3] as real, SumNats(ns) as real))
  {
    var words := [tag] + ShowAll(ns);
    assert IsWordList(words) by {
      forall i | 0 <= i < |words| ensures |words[i]| > 0 && NoSpace(words[i]) {
        if i > 0 {
          ShowNatNoSpace(ns[i - 1]);
        }
      }
    }
    FieldsOfUnwords(words);
    assert words[4] == ShowNat(ns[3]);
    assert words[1..] == ShowAll(ns);
    ParseFloatShowNat(ns[3]);
    SumFloatsShowAll(ns);
    ParseStatOfFields(Unwords(words), words, ns[3] as real, SumNats(ns) as real);
  }

  lemma ParseStatOfFields(line: string, words: seq<string>, idle: real, total: real)
    requires Fields(line) == words && |words| >= 5
    requires ParseFloat(words[4]) == Some(idle) && SumFloats(words[1..]) == Some(total)
    ensures ParseStat(line) == Some(Sample(idle, total))
  {
  }

  /** The first sample of a fresh sampler reads as 0 and is stored. */
  lemma FirstSampleReadsZero(line: string)
    requires ParseStat(line).Some?
    ensures GetCpuUsage(FreshSampler, Some(line)) == CpuReading(0.0, CpuSampler(ParseStat(line)))
  {
  }

  /** The sampling example: idle 850 of 1000, then 860 of 1040, is 75%
      busy. */
  lemma SecondSampleExample()
    ensures Usage(Sample(850.0, 1000.0), Sample(860.0, 1040.0)) == 75.0
  {
  }

  // ---------------------------------------------------------------------
  // get_memory_usage
  // ---------------------------------------------------------------------

  /** Used, total and percentage, as the three metrics return them. */
  datatype Usage3 = Usage3(used: real, total: real, percent: real)

  const NoUsage: Usage3 := Usage3(0.0, 0.0, 0.0)

  const MemTotalLabel: string := "MemTotal:"
  const MemAvailableLabel: string := "MemAvailable:"

  /** `int(line.split()[1]) / 1024`: the kB figure of a meminfo line in MB. */
  function LineMegabytes(line: string): Option<real> {
    var words := Fields(line);
    if |words| < 2 then None
    else
      match ParseInt(words[1])
      case None => None
      case Some(kb) => Some(kb as real / 1024.0)
  }

  /** The meminfo loop from `(total, available)`: each `MemTotal:` line
      overwrites the total, each `MemAvailable:` line the available
      figure; a labelled line that does not parse raises. */
  function ScanMeminfo(lines: seq<string>, total: real, available: real): Option<(real, real)>
    decreases |lines|
  {
    if |lines| == 0 then Some((total, available))
    else if StartsWith(lines[0], MemTotalLabel) then
      match LineMegabytes(lines[0])
      case None => None
      case Some(v) => ScanMeminfo(lines[1..], v, available)
    else if StartsWith(lines[0], MemAvailableLabel) then
      match LineMegabytes(lines[0])
      case None => None
      case Some(v) => ScanMeminfo(lines[1..], total, v)
    else ScanMeminfo(lines[1..], total, available)
  }

  /** The figure of the LAST line carrying `tag`, or `initial`. */
  function LastFigure(lines: seq<string>, tag: string, initial: real): Option<real> {
    if |lines| == 0 then Some(initial)
    else
      var final := lines[|lines| - 1];
      if StartsWith(final, tag) then LineMegabytes(final)
      else LastFigure(lines[..|lines| - 1], tag, initial)
  }

  /** Every labelled line parses. */
  predicate LabelledLinesParse(lines: seq<string>) {
    forall i :: 0 <= i < |lines| && (StartsWith(lines[i], MemTotalLabel) || StartsWith(lines[i], MemAvailableLabel))
      ==> LineMegabytes(lines[i]).Some?
  }

  /** No line carries both labels. */
  lemma LabelsExclusive(line: string)
    ensures !(StartsWith(line, MemTotalLabel) && StartsWith(line, MemAvailableLabel))
  {
    if StartsWith(line, MemTotalLabel) {
      assert line[3] == 'T';
      assert MemAvailableLabel[3] == 'A';
    }
  }

  /** Scanning appends: the scan of `lines + [line]` is the scan of
      `lines` followed by one more step. */
  lemma {:induction false} ScanMeminfoSnoc(lines: seq<string>, line: string, total: real, available: real)
    requires ScanMeminfo(lines, total, available).Some?
    ensures ScanMeminfo(lines + [line], total, available) ==
      var (t, a) := ScanMeminfo(lines, total, available).value;
      ScanMeminfo([line], t, a)
    decreases |lines|
  {
    if |lines| > 0 {
      assert (lines + [line])[0] == lines[0];
      assert (lines + [line])[1..] == lines[1..] + [line];
      var next := if StartsWith(lines[0], MemTotalLabel) then LineMegabytes(lines[0]).value else total;
      var nextAvail := if !StartsWith(lines[0], MemTotalLabel) && StartsWith(lines[0], MemAvailableLabel)
                       then LineMegabytes(lines[0]).value else available;
      ScanMeminfoSnoc(lines[1..], line, next, nextAvail);
    } else {
      assert lines + [line] == [line];
    }
  }

  /** The left-to-right overwriting loop keeps, for each label, the figure
      of the last line that carries it. */
  lemma {:induction false} ScanKeepsLastFigure(lines: seq<string>)
    requires LabelledLinesParse(lines)
    ensures ScanMeminfo(lines, 0.0, 0.0).Some?
    ensures LastFigure(lines, MemTotalLabel, 0.0).Some? && LastFigure(lines, MemAvailableLabel, 0.0).Some?
    ensures ScanMeminfo(lines, 0.0, 0.0).value.0 == LastFigure(lines, MemTotalLabel, 0.0).value
    ensures ScanMeminfo(lines, 0.0, 0.0).value.1 == LastFigure(lines, MemAvailableLabel, 0.0).value
    decreases |lines|
  {
    if |lines| > 0 {
      var init := lines[..|lines| - 1];
      var last := lines[|lines| - 1];
      assert LabelledLinesParse(init) by {
        forall i | 0 <= i < |init| ensures init[i] == lines[i] {}
      }
      ScanKeepsLastFigure(init);
      assert init + [last] == lines;
      ScanMeminfoSnoc(init, last, 0.0, 0.0);
      LabelsExclusive(last);
      var (t, a) := ScanMeminfo(init, 0.0, 0.0).value;
      ScanOneLine(last, t, a);
    }
  }

  /** One line's effect on the running figures. */
  lemma ScanOneLine(line: string, total: real, available: real)
    requires !(StartsWith(line, MemTotalLabel) && StartsWith(line, MemAvailableLabel))
    ensures StartsWith(line, MemTotalLabel) ==>
      ScanMeminfo([line], total, available) == (if LineMegabytes(line).Some? then Some((LineMegabytes(line).value, available)) else None)
    ensures StartsWith(line, MemAvailableLabel) ==>
      ScanMeminfo([line], total, available) == (if LineMegabytes(line).Some? then Some((total, LineMegabytes(line).value)) else None)
    ensures !StartsWith(line, MemTotalLabel) && !StartsWith(line, MemAvailableLabel) ==>
      ScanMeminfo([line], total, available) == Some((total, available))
  {
    assert [line][1..] == [];
  }

  /** Used memory, total and percentage from the two figures in MB. */
  function MemoryFigures(total: real, available: real): (r: Usage3)
    requires total > 0.0
    ensures r.total == total && r.used + available == total
    ensures 0.0 <= available <= total ==> 0.0 <= r.percent <= 100.0
    ensures r.percent * total == r.used * 100.0
  {
    var used := total - available;
    var r := Usage3(used, total, used / total * 100.0);
    assert 0.0 <= available <= total ==> 0.0 <= used / total <= 1.0 by {
      if 0.0 <= available <= total {
        DivideWithin(used, total);
      }
    }
    r
  }

  /** `get_memory_usage`: `lines` are the lines of `/proc/meminfo`, `None`
      when it cannot be read. Without a positive total, or when reading
      raises, every figure is 0. */
  function GetMemoryUsage(lines: Option<seq<string>>): (r: Usage3)
    ensures r == NoUsage || r.total > 0.0
    ensures r.total > 0.0 ==> lines.Some? && ScanMeminfo(lines.value, 0.0, 0.0) == Some((r.total, r.total - r.used))
    ensures r.total > 0.0 ==> r.percent * r.total == r.used * 100.0
    ensures r.total > 0.0 && 0.0 <= r.used <= r.total ==> 0.0 <= r.percent <= 100.0
    ensures lines.Some? && ScanMeminfo(lines.value, 0.0, 0.0).Some? && ScanMeminfo(lines.value, 0.0, 0.0).value.0 > 0.0 ==>
      r.total > 0.0
  {
    if lines.None? then NoUsage
    else
      match ScanMeminfo(lines.value, 0.0, 0.0)
      case None => NoUsage
      case Some((total, available)) =>
        if total > 0.0 then MemoryFigures(total, available) else NoUsage
  }

  /** A meminfo line in the kernel's layout. */
  function MeminfoLine(tag: string, kb: nat): string {
    Unwords([tag, ShowNat(kb), "kB"])
  }

  /** A meminfo line splits into its label, its figure and the unit. */
  lemma MeminfoLineFields(tag: string, kb: nat)
    requires |tag| > 0 && NoSpace(tag)
    ensures StartsWith(MeminfoLine(tag, kb), tag)
    ensures Fields(MeminfoLine(tag, kb)) == [tag, ShowNat(kb), "kB"]
  {
    var words := [tag, ShowNat(kb), "kB"];
    assert MeminfoLine(tag, kb) == tag + (" " + Unwords(words[1..]));
    ShowNatNoSpace(kb);
    assert IsWordList(words);
    FieldsOfUnwords(words);
  }

  /** The figure read back from a meminfo line is its kB count in MB. */
  lemma MeminfoLineFigure(tag: string, kb: nat)
    requires |tag| > 0 && NoSpace(tag)
    ensures StartsWith(MeminfoLine(tag, kb), tag)
    ensures LineMegabytes(MeminfoLine(tag, kb)) == Some(kb as real / 1024.0)
  {
    var line := MeminfoLine(tag, kb);
    MeminfoLineFields(tag, kb);
    var words := Fields(line);
    assert words[1] == ShowNat(kb);
    ParseIntShowNat(kb);
    assert ParseInt(words[1]) == Some(kb);
  }

  /** Total and available lines give used = total - available in MB and
      the matching percentage. */
  lemma MemoryOfMeminfo(totalKb: nat, availableKb: nat)
    requires totalKb > 0
    ensures GetMemoryUsage(Some([MeminfoLine(MemTotalLabel, totalKb), MeminfoLine(MemAvailableLabel, availableKb)]))
      == MemoryFigures(totalKb as real / 1024.0, availableKb as real / 1024.0)
  {
    var first := MeminfoLine(MemTotalLabel, totalKb);
    var second := MeminfoLine(MemAvailableLabel, availableKb);
    var total := totalKb as real / 1024.0;
    var available := availableKb as real / 1024.0;
    MeminfoLineFigure(MemTotalLabel, totalKb);
    MeminfoLineFigure(MemAvailableLabel, availableKb);
    LabelsExclusive(second);
    ScanAvailableLine(second, total, available);
    ScanTotalLine(first, second, total);
    assert ScanMeminfo([first, second], 0.0, 0.0) == Some((total, available));
  }

  lemma ScanTotalLine(first: string, second: string, total: real)
    requires StartsWith(first, MemTotalLabel) && LineMegabytes(first) == Some(total)
    ensures ScanMeminfo([first, second], 0.0, 0.0) == ScanMeminfo([second], total, 0.0)
  {
    assert [first, second][1..] == [second];
  }

  lemma ScanAvailableLine(line: string, total: real, available: real)
    requires !StartsWith(line, MemTotalLabel) && StartsWith(line, MemAvailableLabel)
    requires LineMegabytes(line) == Some(available)
    ensures ScanMeminfo([line], total, 0.0) == Some((total, available))
  {
    assert ScanMeminfo([line][1..], total, available) == Some((total, available));
  }

  /** 8000000 kB with 4000000 kB available is 3906.25 MB used of
      7812.5 MB, 50%. */
  lemma MemoryExample()
    ensures MemoryFigures(8000000.0 / 1024.0, 4000000.0 / 1024.0) == Usage3(3906.25, 7812.5, 50.0)
  {
    assert 8000000.0 / 1024.0 == 7812.5;
    assert 4000000.0 / 1024.0 == 3906.25;
  }

  // ---------------------------------------------------------------------
  // get_disk_usage
  // ---------------------------------------------------------------------

  /** The `statvfs` fields the metric reads. */
  datatype StatVfs = StatVfs(blocks: int, fragmentSize: int, availableBlocks: int)

  const Gibibyte: real := 1073741824.0

  /** `get_disk_usage`: used and total in GB, the percentage 0 when the
      total is not positive; `None` stands for `statvfs` raising. */
  function GetDiskUsage(stat: Option<StatVfs>): (r: Usage3)
    ensures stat.None? ==> r == NoUsage
    ensures stat.Some? ==>
      && r.total == (stat.value.blocks * stat.value.fragmentSize) as real / Gibibyte
      && r.used == ((stat.value.blocks - stat.value.availableBlocks) * stat.value.fragmentSize) as real / Gibibyte
    ensures r.total <= 0.0 ==> r.percent == 0.0
  {
    match stat
    case None => NoUsage
    case Some(s) =>
      var total := (s.blocks * s.fragmentSize) as real / Gibibyte;
      var free := (s.availableBlocks * s.fragmentSize) as real / Gibibyte;
      var used := total - free;
      Usage3(used, total, if total > 0.0 then used / total * 100.0 else 0.0)
  }

  /** The percentage does not depend on the block size: it is the share of
      blocks not available, so 10000000 blocks with 5000000 available is
      50% whatever the fragment size. */
  lemma DiskPercentOfBlocks(stat: StatVfs)
    requires stat.blocks > 0 && stat.fragmentSize > 0
    ensures GetDiskUsage(Some(stat)).percent ==
      (stat.blocks - stat.availableBlocks) as real / stat.blocks as real * 100.0
    ensures stat.blocks == 10000000 && stat.availableBlocks == 5000000 ==> GetDiskUsage(Some(stat)).percent == 50.0
  {
    var b := stat.blocks as real;
    var f := stat.fragmentSize as real;
    var a := stat.availableBlocks as real;
    var total := (stat.blocks * stat.fragmentSize) as real / Gibibyte;
    var free := (stat.availableBlocks * stat.fragmentSize) as real / Gibibyte;
    assert total == b * f / Gibibyte;
    assert free == a * f / Gibibyte;
    assert total - free == (b - a) * f / Gibibyte;
    assert (total - free) / total == (b - a) / b;
  }
}
