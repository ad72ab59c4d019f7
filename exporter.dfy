/** The exporter script's own logic on top of its decoder: the state-file
    path, the counter deltas between polls, the "exceeded check" flags, the
    Prometheus text it writes, the regular-expression read-back of an
    earlier output file, and the polling loop that keeps the previous
    snapshot. */
module Exporter {
  import opened Bytes
  import opened Wrappers
  import opened Text
  import opened Ioctl
  import opened Exposition
  import AC = AdminCommand
  import Id = IdentifyController
  import SP = StatsLogPage
  import Py = ScriptDecoder

  // ------------------------------------------------------------ names

  /** `self.device.replace('/dev/', '')`: the device label. */
  function DeviceName(device: string): (name: string)
    ensures forall i :: 0 <= i < |name| ==> name[i] in device
    ensures HasPrefix(device, "/dev/") ==> name == DeviceName(device[5..])
    decreases |device|
  {
    DeleteKeepsAll(device, "/dev/");
    ReplaceAll(device, "/dev/", "")
  }

  lemma DeleteKeepsAll(s: string, pat: string)
    requires pat != []
    ensures forall c :: c in ReplaceAll(s, pat, "") ==> c in s
  {
    forall c | c in ReplaceAll(s, pat, "")
      ensures c in s
    {
      DeleteKeepsCharacters(s, pat, c);
    }
  }

  /** A node directly under /dev/ is labelled by its own name. */
  lemma DeviceNameOfNode(node: string)
    requires '/' !in node
    ensures DeviceName("/dev/" + node) == node
  {
    var s := "/dev/" + node;
    assert s[..5] == "/dev/" && s[5..] == node;
    ReplaceAbsent(node, "/dev/", "");
  }

  /** The part of the state-file name that comes from the device: every
      "/dev/" removed, then every remaining '/' turned into '_'. */
  function StateName(device: string): (name: string)
    ensures |name| == |DeviceName(device)|
    ensures forall i :: 0 <= i < |name| ==>
      name[i] == (if DeviceName(device)[i] == '/' then '_' else DeviceName(device)[i])
    ensures '/' !in name
  {
    ReplaceCharAt(DeviceName(device), "/", "_");
    ReplaceAll(DeviceName(device), "/", "_")
  }

  /** `_get_state_file_path`. */
  function StateFilePath(device: string): (path: string)
    ensures HasPrefix(path, "/tmp/ebs_stats_")
    ensures path == "/tmp/ebs_stats_" + StateName(device) + ".json"
    ensures forall i :: 15 <= i < |path| ==> path[i] != '/'
  {
    PathAround("/tmp/ebs_stats_", StateName(device), ".json");
    "/tmp/ebs_stats_" + StateName(device) + ".json"
  }

  lemma PathAround(dir: string, name: string, ext: string)
    requires '/' !in name && '/' !in ext
    ensures forall i :: |dir| <= i < |dir + name + ext| ==> (dir + name + ext)[i] != '/'
  {
    var p := dir + name + ext;
    forall i | |dir| <= i < |p|
      ensures p[i] != '/'
    {
      if i < |dir| + |name| {
        assert p[i] == name[i - |dir|];
      } else {
        assert p[i] == ext[i - |dir| - |name|];
      }
    }
  }

  /** The usual device node gets the usual file. */
  lemma StateFilePathOfNode(node: string)
    requires '/' !in node
    ensures StateFilePath("/dev/" + node) == "/tmp/ebs_stats_" + node + ".json"
  {
    DeviceNameOfNode(node);
    ReplaceAbsent(node, "/", "_");
  }

  /** Distinct devices can share a state file: the path keeps no trace of
      which '_' was a '/'. */
  lemma StateFilesCollide()
    ensures StateFilePath("/dev/a/b") == StateFilePath("/dev/a_b")
    ensures "/dev/a/b" != "/dev/a_b"
  {
    NestedStateName();
    FlatStateName();
  }

  lemma NestedStateName()
    ensures StateName("/dev/a/b") == "a_b"
  {
    NestedNodeName();
    SlashReplaced();
  }

  lemma FlatStateName()
    ensures StateName("/dev/a_b") == "a_b"
  {
    DeviceNameOfNode("a_b");
    ReplaceAbsent("a_b", "/", "_");
  }

  lemma NestedNodeName()
    ensures DeviceName("/dev/a/b") == "a/b"
  {
    var s := "/dev/a/b";
    assert s[..5] == "/dev/" && s[5..] == "a/b";
    assert ReplaceAll("a/b", "/dev/", "") == "a/b";
  }

  lemma SlashReplaced()
    ensures ReplaceAll("a/b", "/", "_") == "a_b"
  {
    assert ReplaceAll("b", "/", "_") == "b";
  }

  // ------------------------------------------------------------ deltas

  /** Storing an integer into a `c_uint64` field keeps it modulo 2^64. */
  function Wrap64(x: int): (r: u64)
    ensures 0 <= x < TwoTo64 ==> r == x
    ensures x < 0 && 0 <= x + TwoTo64 ==> r == x + TwoTo64
  {
    x % 0x1_0000_0000_0000_0000
  }

  const ZeroBin := SP.HistogramBin(0, 0, 0, 0)

  function ZeroBins(n: nat): (bins: seq<SP.HistogramBin>)
    ensures |bins| == n && forall k :: 0 <= k < n ==> bins[k] == ZeroBin
  {
    if n == 0 then [] else ZeroBins(n - 1) + [ZeroBin]
  }

  const ZeroHistogram := SP.Histogram(0, ZeroBins(SP.BinCount))

  /** A freshly created `nvme_get_amzn_stats_logpage`: every byte zero. */
  const ZeroStats := SP.Stats(0, Zeros(4), 0, 0, 0, 0, 0, 0, 0, 0, 0, 0, 0,
                              Zeros(416), ZeroHistogram, ZeroHistogram, Zeros(496))

  /** The ten cumulative counters, in the order `_calculate_diff` takes them. */
  function Counters(s: SP.Stats): (c: seq<u64>)
    ensures |c| == 10
  {
    [s.totalReadOps, s.totalWriteOps, s.totalReadBytes, s.totalWriteBytes,
     s.totalReadTime, s.totalWriteTime, s.volumeExceededIops, s.volumeExceededTp,
     s.instanceExceededIops, s.instanceExceededTp]
  }

  /** The difference of one counter, as the `c_uint64` field stores it. */
  function Delta(curr: u64, prev: u64): (d: u64)
    ensures Wrap64(prev as int + d) == curr
    ensures prev <= curr ==> d == curr - prev
    ensures curr < prev ==> d as int == curr + TwoTo64 as int - prev
  {
    Wrap64(curr - prev)
  }

  /** The counter-by-counter differences. */
  function Deltas(prev: seq<u64>, curr: seq<u64>): (ds: seq<u64>)
    requires |prev| == |curr|
    ensures |ds| == |curr|
    ensures forall i :: 0 <= i < |curr| ==> Wrap64(prev[i] as int + ds[i]) == curr[i]
    ensures forall i :: 0 <= i < |curr| && prev[i] <= curr[i] ==> ds[i] == curr[i] - prev[i]
  {
    seq(|curr|, i requires 0 <= i < |curr| => Delta(curr[i], prev[i]))
  }

  /** A fresh record holding the ten counters `c` and the queue length `q`. */
  function WithCounters(c: seq<u64>, q: u64): (d: SP.Stats)
    requires |c| == 10
    ensures Counters(d) == c && d.volumeQueueLength == q
    ensures d.magic == 0 && d.readLatency == ZeroHistogram && d.writeLatency == ZeroHistogram
    ensures d.reserved0 == Zeros(4) && d.reserved1 == Zeros(416) && d.reserved2 == Zeros(496)
  {
    SP.Stats(0, Zeros(4), c[0], c[1], c[2], c[3], c[4], c[5], c[6], c[7], c[8], c[9], q,
             Zeros(416), ZeroHistogram, ZeroHistogram, Zeros(496))
  }

  /** `_calculate_diff`: with no previous snapshot the current one itself;
      otherwise a fresh record holding the counter differences and the
      current queue length. */
  function Diff(prev: Option<SP.Stats>, curr: SP.Stats): (d: SP.Stats)
    ensures prev.None? ==> d == curr
    ensures prev.Some? ==> Counters(d) == Deltas(Counters(prev.value), Counters(curr))
    ensures prev.Some? ==> d.volumeQueueLength == curr.volumeQueueLength
    ensures prev.Some? ==> d.magic == 0 && d.readLatency == ZeroHistogram && d.writeLatency == ZeroHistogram
    ensures prev.Some? ==> d.reserved0 == Zeros(4) && d.reserved1 == Zeros(416) && d.reserved2 == Zeros(496)
  {
    if prev.None? then curr
    else WithCounters(Deltas(Counters(prev.value), Counters(curr)), curr.volumeQueueLength)
  }

  /** One counter of the record `_calculate_diff` returns: the wrapped
      difference of that counter. */
  lemma DiffCounter(prev: SP.Stats, curr: SP.Stats, i: nat)
    requires i < 10
    ensures Counters(Diff(Some(prev), curr))[i] == Delta(Counters(curr)[i], Counters(prev)[i])
  {
  }

  /** The sum of the deltas a counter shows over successive readings `cs`
      that follow the reading `p`. */
  function DeltaSum(p: u64, cs: seq<u64>): int
    decreases |cs|
  {
    if cs == [] then 0 else Delta(cs[0], p) + DeltaSum(cs[0], cs[1..])
  }

  /** Adding up the exported deltas of a counter recovers its last reading
      modulo 2^64, wrap-arounds included. */
  lemma {:induction false} DeltasTelescope(p: u64, cs: seq<u64>)
    ensures Wrap64(p as int + DeltaSum(p, cs)) == if cs == [] then p else cs[|cs| - 1]
    decreases |cs|
  {
    if cs != [] {
      DeltasTelescope(cs[0], cs[1..]);
      assert (if cs[1..] == [] then cs[0] else cs[1..][|cs[1..]| - 1]) == cs[|cs| - 1];
      StepMod(p, Delta(cs[0], p), cs[0], DeltaSum(cs[0], cs[1..]), cs[|cs| - 1]);
    }
  }

  lemma StepMod(p: int, d: int, c: int, rest: int, last: int)
    requires 0 <= p < TwoTo64 && 0 <= d < TwoTo64 && 0 <= c < TwoTo64
    requires Wrap64(p + d) == c && Wrap64(c + rest) == last
    ensures Wrap64(p + (d + rest)) == last
  {
    assert p + d == c || p + d == c + TwoTo64;
    if p + d != c {
      assert p + (d + rest) == (c + rest) + TwoTo64;
    }
  }

  // ------------------------------------------------------------ flags

  /** `iops_exceeded_check` / `tp_exceeded_check`: 1 exactly when an earlier
      total is known and the current total is strictly larger. */
  function ExceededCheck(current: nat, previous: Option<nat>): (flag: nat)
    ensures flag <= 1
    ensures flag == 1 <==> previous.Some? && current > previous.value
  {
    if previous.Some? && current > previous.value then 1 else 0
  }

  // --------------------------------------------------------- catalogue

  const Counter := "counter"
  const Gauge := "gauge"

  const VolumeExceeded := "ebs_volume_performance_exceeded_"
  const InstanceExceeded := "ebs_instance_performance_exceeded_"

  const VolumeIopsTotal := VolumeExceeded + "iops_total"
  const VolumeTpTotal := VolumeExceeded + "throughput_total"
  const TpCheck := "ebs_volume_throughput_exceeded_check"
  const IopsCheck := "ebs_volume_iops_exceeded_check"
  const InstanceIopsTotal := InstanceExceeded + "iops_total"
  const InstanceTpTotal := InstanceExceeded + "throughput_total"
  const VolumeIopsPercent := VolumeExceeded + "iops_percent"
  const VolumeTpPercent := VolumeExceeded + "throughput_percent"
  const InstanceIopsPercent := InstanceExceeded + "iops_percent"
  const InstanceTpPercent := InstanceExceeded + "throughput_percent"
  const ReadOpsTotal := "ebs_total_read_ops_total"
  const WriteOpsTotal := "ebs_total_write_ops_total"
  const ReadBytesTotal := "ebs_total_read_bytes_total"
  const WriteBytesTotal := "ebs_total_write_bytes_total"
  const QueueLength := "ebs_volume_queue_length"

  const TimeExceeded := "Total time in microseconds that the "
  const ShareExceeded := "Percentage of time that the "
  const DuringInterval := " during the last interval"
  const VolumeIopsLimit := "EBS volume IOPS limit was exceeded"
  const VolumeTpLimit := "EBS volume throughput limit was exceeded"
  const InstanceIopsLimit := "EC2 instance EBS IOPS limit was exceeded"
  const InstanceTpLimit := "EC2 instance EBS " + "throughput limit was exceeded"
  const ReportsWhether := "Reports whether an application " + "consistently attempted to drive "
  const WithinInterval := "within the last collection interval"
  const TpCheckHelp :=
    ReportsWhether + "throughput that exceeds the volume's " + "provisioned throughput performance " + WithinInterval
  const IopsCheckHelp :=
    ReportsWhether + "IOPS that exceeds the volume's " + "provisioned IOPS performance " + WithinInterval

  /** The metric names in output order, without and with the four
      percentages. */
  const PlainOrder: seq<string> :=
    [VolumeIopsTotal, VolumeTpTotal, TpCheck, IopsCheck, InstanceIopsTotal, InstanceTpTotal,
     ReadOpsTotal, WriteOpsTotal, ReadBytesTotal, WriteBytesTotal, QueueLength]
  const RateOrder: seq<string> :=
    [VolumeIopsPercent, VolumeTpPercent, InstanceIopsPercent, InstanceTpPercent]

  // ---------------------------------------------------------- metrics

  /** `if interval and interval > 0`. */
  predicate HasRates(interval: Option<real>)
  {
    interval.Some? && interval.value > 0.0
  }

  /** The share of the interval, in percent, that a counter of microseconds
      covers; `show` is how the script rounds and prints it. */
  function Percent(counter: u64, interval: real, show: real -> string): string
    requires interval > 0.0
  {
    show(counter as real / (interval * 1000000.0) * 100.0)
  }

  /** The six metrics before the percentages. */
  function Head(s: SP.Stats, prevIops: Option<nat>, prevTp: Option<nat>): seq<Metric>
  {
    [Metric(VolumeIopsTotal, Decimal(s.volumeExceededIops), TimeExceeded + VolumeIopsLimit, Counter),
     Metric(VolumeTpTotal, Decimal(s.volumeExceededTp), TimeExceeded + VolumeTpLimit, Counter),
     Metric(TpCheck, Decimal(ExceededCheck(s.volumeExceededTp, prevTp)), TpCheckHelp, Gauge),
     Metric(IopsCheck, Decimal(ExceededCheck(s.volumeExceededIops, prevIops)), IopsCheckHelp, Gauge),
     Metric(InstanceIopsTotal, Decimal(s.instanceExceededIops), TimeExceeded + InstanceIopsLimit, Counter),
     Metric(InstanceTpTotal, Decimal(s.instanceExceededTp), TimeExceeded + InstanceTpLimit, Counter)]
  }

  /** The four percentages. */
  function Rates(s: SP.Stats, interval: real, show: real -> string): seq<Metric>
    requires interval > 0.0
  {
    [Metric(VolumeIopsPercent, Percent(s.volumeExceededIops, interval, show),
            ShareExceeded + VolumeIopsLimit + DuringInterval, Gauge),
     Metric(VolumeTpPercent, Percent(s.volumeExceededTp, interval, show),
            ShareExceeded + VolumeTpLimit + DuringInterval, Gauge),
     Metric(InstanceIopsPercent, Percent(s.instanceExceededIops, interval, show),
            ShareExceeded + InstanceIopsLimit + DuringInterval, Gauge),
     Metric(InstanceTpPercent, Percent(s.instanceExceededTp, interval, show),
            ShareExceeded + InstanceTpLimit + DuringInterval, Gauge)]
  }

  /** The five metrics after the percentages. */
  function Tail(s: SP.Stats): seq<Metric>
  {
    [Metric(ReadOpsTotal, Decimal(s.totalReadOps), "Total number of read operations", Counter),
     Metric(WriteOpsTotal, Decimal(s.totalWriteOps), "Total number of write operations", Counter),
     Metric(ReadBytesTotal, Decimal(s.totalReadBytes), "Total bytes read", Counter),
     Metric(WriteBytesTotal, Decimal(s.totalWriteBytes), "Total bytes written", Counter),
     Metric(QueueLength, Decimal(s.volumeQueueLength), "Current volume queue length", Gauge)]
  }

  /** The `add_metric` calls of `_format_prometheus_metrics`, in order. */
  function Metrics(s: SP.Stats, interval: Option<real>, prevIops: Option<nat>, prevTp: Option<nat>,
                   show: real -> string): seq<Metric>
  {
    Head(s, prevIops, prevTp) + (if HasRates(interval) then Rates(s, interval.value, show) else []) + Tail(s)
  }

  function Names(ms: seq<Metric>): (ns: seq<string>)
    ensures |ns| == |ms| && forall k :: 0 <= k < |ms| ==> ns[k] == ms[k].name
  {
    seq(|ms|, k requires 0 <= k < |ms| => ms[k].name)
  }

  /** Eleven metrics in a fixed order, and the four percentages after the
      sixth exactly when the interval is positive. */
  lemma MetricOrder(s: SP.Stats, interval: Option<real>, prevIops: Option<nat>, prevTp: Option<nat>,
                    show: real -> string)
    ensures !HasRates(interval) ==> Names(Metrics(s, interval, prevIops, prevTp, show)) == PlainOrder
    ensures HasRates(interval) ==>
      Names(Metrics(s, interval, prevIops, prevTp, show)) == PlainOrder[..6] + RateOrder + PlainOrder[6..]
  {
    var head, tail := Head(s, prevIops, prevTp), Tail(s);
    assert Names(head) == PlainOrder[..6];
    assert Names(tail) == PlainOrder[6..];
    if HasRates(interval) {
      var rates := Rates(s, interval.value, show);
      assert Names(rates) == RateOrder;
      NamesAppend(head, rates);
      NamesAppend(head + rates, tail);
    } else {
      assert head + [] + tail == head + tail;
      NamesAppend(head, tail);
      assert PlainOrder[..6] + PlainOrder[6..] == PlainOrder;
    }
  }

  lemma NamesAppend(a: seq<Metric>, b: seq<Metric>)
    ensures Names(a + b) == Names(a) + Names(b)
  {
  }

  /** The totals and the check flags carry the record's counters and the
      comparison with the earlier totals. */
  lemma MetricValues(s: SP.Stats, interval: Option<real>, prevIops: Option<nat>, prevTp: Option<nat>,
                     show: real -> string)
    ensures var ms := Metrics(s, interval, prevIops, prevTp, show);
      && ms[0].value == Decimal(s.volumeExceededIops)
      && ms[1].value == Decimal(s.volumeExceededTp)
      && (ms[2].value == "1" <==> prevTp.Some? && s.volumeExceededTp > prevTp.value)
      && (ms[3].value == "1" <==> prevIops.Some? && s.volumeExceededIops > prevIops.value)
      && (ms[2].value == "1" || ms[2].value == "0")
      && (ms[3].value == "1" || ms[3].value == "0")
      && ms[|ms| - 1].value == Decimal(s.volumeQueueLength)
  {
    assert Decimal(0) == "0" && Decimal(1) == "1";
  }

  /** The label value of `volume_id`: the f-string renders None as "None". */
  function VolumeLabel(volumeId: Option<string>): string
  {
    if volumeId.None? then "None" else volumeId.value
  }

  function Labels(device: string, volumeId: Option<string>): string
  {
    LabelText(DeviceName(device), VolumeLabel(volumeId))
  }

  /** The text `_format_prometheus_metrics` returns. */
  function Render(device: string, volumeId: Option<string>, s: SP.Stats, interval: Option<real>,
                  prevIops: Option<nat>, prevTp: Option<nat>, show: real -> string): string
  {
    JoinLines(Lines(Labels(device, volumeId), Metrics(s, interval, prevIops, prevTp, show)))
  }

  /** Appending one metric's four lines extends the rendering by that metric. */
  lemma {:induction false} LinesSnoc(labels: string, ms: seq<Metric>, m: Metric)
    ensures Lines(labels, ms + [m]) == Lines(labels, ms) + MetricLines(labels, m)
  {
    if ms != [] {
      assert (ms + [m])[1..] == ms[1..] + [m];
      LinesSnoc(labels, ms[1..], m);
    } else {
      assert [] + [m] == [m];
    }
  }

  /** The lines of two runs of metrics are the lines of the first, then those of the second. */
  lemma {:induction false} LinesAppend(labels: string, a: seq<Metric>, b: seq<Metric>)
    ensures Lines(labels, a + b) == Lines(labels, a) + Lines(labels, b)
  {
    if a != [] {
      assert (a + b)[1..] == a[1..] + b;
      LinesAppend(labels, a[1..], b);
    } else {
      assert [] + b == b;
    }
  }

  /** One more metric, one more block of four lines. */
  lemma LinesTake(labels: string, pre: seq<string>, ms: seq<Metric>, k: nat)
    requires k < |ms|
    ensures pre + Lines(labels, ms[..k + 1]) == pre + Lines(labels, ms[..k]) + MetricLines(labels, ms[k])
  {
    TakeOneMore(ms, k);
    LinesSnoc(labels, ms[..k], ms[k]);
  }

  /** Four metrics added one by one give their lines. */
  lemma LinesOfFour(labels: string, pre: seq<string>, ms: seq<Metric>)
    requires |ms| == 4
    ensures pre + Lines(labels, ms) == pre + MetricLines(labels, ms[0]) + MetricLines(labels, ms[1]) + MetricLines(labels, ms[2]) + MetricLines(labels, ms[3])
  {
    assert pre + Lines(labels, ms[..0]) == pre;
    LinesTake(labels, pre, ms, 0);
    LinesTake(labels, pre, ms, 1);
    LinesTake(labels, pre, ms, 2);
    LinesTake(labels, pre, ms, 3);
    TakeAll(ms, 4);
  }

  /** Five metrics added one by one give their lines. */
  lemma LinesOfFive(labels: string, pre: seq<string>, ms: seq<Metric>)
    requires |ms| == 5
    ensures pre + Lines(labels, ms) == pre + MetricLines(labels, ms[0]) + MetricLines(labels, ms[1]) + MetricLines(labels, ms[2]) + MetricLines(labels, ms[3]) + MetricLines(labels, ms[4])
  {
    assert pre + Lines(labels, ms[..0]) == pre;
    LinesTake(labels, pre, ms, 0);
    LinesTake(labels, pre, ms, 1);
    LinesTake(labels, pre, ms, 2);
    LinesTake(labels, pre, ms, 3);
    LinesTake(labels, pre, ms, 4);
    TakeAll(ms, 5);
  }

  /** Six metrics added one by one give their lines. */
  lemma LinesOfSix(labels: string, pre: seq<string>, ms: seq<Metric>)
    requires |ms| == 6
    ensures pre + Lines(labels, ms) == pre + MetricLines(labels, ms[0]) + MetricLines(labels, ms[1]) + MetricLines(labels, ms[2]) + MetricLines(labels, ms[3]) + MetricLines(labels, ms[4]) + MetricLines(labels, ms[5])
  {
    assert pre + Lines(labels, ms[..0]) == pre;
    LinesTake(labels, pre, ms, 0);
    LinesTake(labels, pre, ms, 1);
    LinesTake(labels, pre, ms, 2);
    LinesTake(labels, pre, ms, 3);
    LinesTake(labels, pre, ms, 4);
    LinesTake(labels, pre, ms, 5);
    TakeAll(ms, 6);
  }

  /** The three blocks of `_format_prometheus_metrics`, joined, give the
      rendering. */
  lemma RenderInBlocks(device: string, volumeId: Option<string>, s: SP.Stats, interval: Option<real>,
                       prevIops: Option<nat>, prevTp: Option<nat>, show: real -> string,
                       front: seq<string>, middle: seq<string>, lines: seq<string>)
    requires front == [] + Lines(Labels(device, volumeId), Head(s, prevIops, prevTp))
    requires HasRates(interval) ==> middle == front + Lines(Labels(device, volumeId), Rates(s, interval.value, show))
    requires !HasRates(interval) ==> middle == front
    requires lines == middle + Lines(Labels(device, volumeId), Tail(s))
    ensures JoinLines(lines) == Render(device, volumeId, s, interval, prevIops, prevTp, show)
  {
    var labels := Labels(device, volumeId);
    var rates := if HasRates(interval) then Rates(s, interval.value, show) else [];
    assert middle == front + Lines(labels, rates);
    LinesOfBlocks(labels, Head(s, prevIops, prevTp), rates, Tail(s), front, middle, lines);
  }

  lemma LinesOfBlocks(labels: string, head: seq<Metric>, rates: seq<Metric>, tail: seq<Metric>,
                      front: seq<string>, middle: seq<string>, lines: seq<string>)
    requires front == [] + Lines(labels, head)
    requires middle == front + Lines(labels, rates)
    requires lines == middle + Lines(labels, tail)
    ensures lines == Lines(labels, head + rates + tail)
  {
    LinesAppend(labels, head, rates);
    LinesAppend(labels, head + rates, tail);
  }

  // ------------------------------------------------------- reading back

  /** `_read_previous_metrics` on the files of the machine: no output file,
      an empty name or a missing file give two Nones; otherwise the first
      match of each of the two totals. */
  function ReadPreviousMetrics(outputFile: Option<string>, files: map<string, string>): (r: (Option<nat>, Option<nat>))
    ensures outputFile.None? || outputFile.value == [] || outputFile.value !in files ==> r == (None, None)
  {
    if outputFile.None? || outputFile.value == [] || outputFile.value !in files then (None, None)
    else
      var content := files[outputFile.value];
      (Search(content, VolumeIopsTotal), Search(content, VolumeTpTotal))
  }

  /** A text that ends with the word "counter" and a line break, followed by
      the name of the first total, does not end with the name of the second. */
  lemma FirstDoesNotEndWithSecond(m1: Metric)
    requires m1.name == VolumeIopsTotal && m1.kind == Counter
    ensures !EndsWith(Preamble(m1) + m1.name, VolumeTpTotal)
  {
    var x := "# HELP " + m1.name + " " + m1.help + "\n" + "# TYPE " + m1.name + " ";
    assert Preamble(m1) == x + "counter\n";
    var s := Preamble(m1) + m1.name;
    assert |m1.name| == 42 && |VolumeTpTotal| == 48;
    assert s[|s| - 48] == (x + "counter\n")[|x| + 2] == 'u';
    assert VolumeTpTotal[0] == 'e';
  }

  /** Reading a rendering back with `_read_previous_metrics`' expressions
      gives the two volume totals it was rendered from, whatever the
      interval, the earlier totals and the percentage formatting, provided
      the device path and the volume id hold no brace. */
  lemma ReadBackTotals(device: string, volumeId: Option<string>, s: SP.Stats, interval: Option<real>,
                       prevIops: Option<nat>, prevTp: Option<nat>, show: real -> string)
    requires '{' !in device && '}' !in device
    requires volumeId.Some? ==> '{' !in volumeId.value && '}' !in volumeId.value
    ensures Search(Render(device, volumeId, s, interval, prevIops, prevTp, show), VolumeIopsTotal)
         == Some(s.volumeExceededIops as nat)
    ensures Search(Render(device, volumeId, s, interval, prevIops, prevTp, show), VolumeTpTotal)
         == Some(s.volumeExceededTp as nat)
  {
    var ms := Metrics(s, interval, prevIops, prevTp, show);
    var m1 := Metric(VolumeIopsTotal, Decimal(s.volumeExceededIops), TimeExceeded + VolumeIopsLimit, Counter);
    var m2 := Metric(VolumeTpTotal, Decimal(s.volumeExceededTp), TimeExceeded + VolumeTpLimit, Counter);
    var rest := ms[2..];
    assert ms == [m1, m2] + rest;
    LabelsBraceFree(device, volumeId);
    TotalsBraceFree();
    FirstDoesNotEndWithSecond(m1);
    ReadBackFirstTwo(Labels(device, volumeId), m1, m2, s.volumeExceededIops, s.volumeExceededTp, rest);
  }

  lemma LabelsBraceFree(device: string, volumeId: Option<string>)
    requires '{' !in device && '}' !in device
    requires volumeId.Some? ==> '{' !in volumeId.value && '}' !in volumeId.value
    ensures Labels(device, volumeId) != [] && '{' !in Labels(device, volumeId) && '}' !in Labels(device, volumeId)
  {
    var name := DeviceName(device);
    assert '{' !in name && '}' !in name;
    assert '{' !in VolumeLabel(volumeId) && '}' !in VolumeLabel(volumeId);
  }

  lemma TotalsBraceFree()
    ensures '{' !in VolumeIopsTotal && '{' !in VolumeTpTotal && '{' !in Counter
    ensures '{' !in TimeExceeded + VolumeIopsLimit && '{' !in TimeExceeded + VolumeTpLimit
  {
    NamePiecesBraceFree();
    HelpPiecesBraceFree();
    NoBrace(VolumeExceeded, "iops_total");
    NoBrace(VolumeExceeded, "throughput_total");
    NoBrace(TimeExceeded, VolumeIopsLimit);
    NoBrace(TimeExceeded, VolumeTpLimit);
  }

  lemma NamePiecesBraceFree()
    ensures '{' !in VolumeExceeded && '{' !in "iops_total" && '{' !in "throughput_total" && '{' !in Counter
  {
  }

  lemma HelpPiecesBraceFree()
    ensures '{' !in TimeExceeded && '{' !in VolumeIopsLimit && '{' !in VolumeTpLimit
  {
    TimeExceededBraceFree();
    VolumeLimitsBraceFree();
  }

  lemma TimeExceededBraceFree()
    ensures '{' !in TimeExceeded
  {
  }

  lemma VolumeLimitsBraceFree()
    ensures '{' !in VolumeIopsLimit && '{' !in VolumeTpLimit
  {
  }

  lemma NoBrace(a: string, b: string)
    requires '{' !in a && '{' !in b
    ensures '{' !in a + b
  {
  }

  /** Across two runs that share an output file, the check flags of the
      second run compare its totals with the totals the first run wrote. */
  lemma ExceededAcrossRuns(device: string, volumeId: Option<string>, outputFile: string, files: map<string, string>,
                           s0: SP.Stats, interval0: Option<real>, iops0: Option<nat>, tp0: Option<nat>, show0: real -> string,
                           s1: SP.Stats, interval1: Option<real>, show1: real -> string)
    requires '{' !in device && '}' !in device
    requires volumeId.Some? ==> '{' !in volumeId.value && '}' !in volumeId.value
    requires outputFile != [] && outputFile in files
    requires files[outputFile] == Render(device, volumeId, s0, interval0, iops0, tp0, show0)
    ensures var back := ReadPreviousMetrics(Some(outputFile), files);
      var ms := Metrics(s1, interval1, back.0, back.1, show1);
      && (ms[2].value == "1" <==> s1.volumeExceededTp > s0.volumeExceededTp)
      && (ms[3].value == "1" <==> s1.volumeExceededIops > s0.volumeExceededIops)
  {
    var back := ReadPreviousMetrics(Some(outputFile), files);
    assert back == (Some(s0.volumeExceededIops as nat), Some(s0.volumeExceededTp as nat)) by {
      ReadBackTotals(device, volumeId, s0, interval0, iops0, tp0, show0);
    }
    MetricValues(s1, interval1, back.0, back.1, show1);
  }

  // ------------------------------------------------------- polling

  /** What `_query_stats` gives for the device on a host. */
  function StatsQuery(device: string): Host -> Py.PyOutcome<SP.Stats>
  {
    host => Py.StatsOutcome(host, device)
  }

  /** The records a run of polls returns: one per poll, up to the first
      poll that fails. */
  function Snapshots(query: Host -> Py.PyOutcome<SP.Stats>, polls: seq<Host>): (snaps: seq<SP.Stats>)
    ensures |snaps| <= |polls|
  {
    if polls == [] then []
    else match query(polls[0])
      case Returned(s) => [s] + Snapshots(query, polls[1..])
      case _ => []
  }

  /** Poll k before the end of the snapshots returned snapshot k; the poll
      right after them, if any, did not return. */
  lemma {:induction false} SnapshotAt(query: Host -> Py.PyOutcome<SP.Stats>, polls: seq<Host>, k: nat)
    ensures var snaps := Snapshots(query, polls);
      && (k < |snaps| ==> query(polls[k]) == Py.Returned(snaps[k]))
      && (k == |snaps| < |polls| ==> !query(polls[k]).Returned?)
  {
    if polls != [] && query(polls[0]).Returned? && k > 0 {
      SnapshotAt(query, polls[1..], k - 1);
    }
  }

  /** The snapshot a poll is diffed against: the one before it, or the
      exporter's saved one for the first poll. */
  function Latest(first: Option<SP.Stats>, snaps: seq<SP.Stats>): (prev: Option<SP.Stats>)
    ensures snaps != [] ==> prev == Some(snaps[|snaps| - 1])
  {
    if snaps == [] then first else Some(snaps[|snaps| - 1])
  }

  /** What continuous mode renders for one poll: the record diffed against
      the previous snapshot, with the interval and no earlier totals. */
  function ContinuousFrame(device: string, volumeId: Option<string>, interval: nat, show: real -> string)
    : (Option<SP.Stats>, SP.Stats) -> string
  {
    (prev, s) => Render(device, volumeId, Diff(prev, s), Some(interval as real), None, None, show)
  }

  /** What continuous mode writes for a run of snapshots: each one framed
      against the one before it, the first against `prev`. */
  function Outputs(frame: (Option<SP.Stats>, SP.Stats) -> string, prev: Option<SP.Stats>, snaps: seq<SP.Stats>)
    : (written: seq<string>)
  {
    seq(|snaps|, k requires 0 <= k < |snaps| => frame(Latest(prev, snaps[..k]), snaps[k]))
  }

  /** One more poll adds one more output, framed against the latest snapshot. */
  lemma OutputsSnoc(frame: (Option<SP.Stats>, SP.Stats) -> string, prev: Option<SP.Stats>,
                    snaps: seq<SP.Stats>, s: SP.Stats)
    ensures Outputs(frame, prev, snaps + [s]) == Outputs(frame, prev, snaps) + [frame(Latest(prev, snaps), s)]
  {
    var longer := snaps + [s];
    forall k | 0 <= k < |snaps|
      ensures longer[..k] == snaps[..k]
    {
    }
    assert longer[..|snaps|] == snaps;
  }

  lemma TakeOneMore<T>(s: seq<T>, i: nat)
    requires i < |s|
    ensures s[..i + 1] == s[..i] + [s[i]]
  {
  }

  lemma TakeAll<T>(s: seq<T>, i: nat)
    requires i == |s|
    ensures s[..i] == s
  {
  }

  /** In continuous mode no earlier totals are passed, so both check flags
      are always 0. */
  lemma ContinuousChecksStayZero(s: SP.Stats, interval: nat, show: real -> string)
    ensures Metrics(s, Some(interval as real), None, None, show)[2].value == "0"
    ensures Metrics(s, Some(interval as real), None, None, show)[3].value == "0"
  {
    MetricValues(s, Some(interval as real), None, None, show);
  }

  /** One `add_metric` call: its four lines go after the ones already there. */
  method AddMetric(labels: string, lines: seq<string>, m: Metric) returns (lines': seq<string>)
    ensures lines' == lines + MetricLines(labels, m)
  {
    lines' := lines + ["# HELP " + m.name + " " + m.help, "# TYPE " + m.name + " " + m.kind,
                       m.name + "{" + labels + "}" + " " + m.value, ""];
  }

  /** How `_format_prometheus_metrics` sets `iops_exceeded_check` and
      `tp_exceeded_check`: 0, raised to 1 when an earlier total exists and
      the current one is above it. */
  method CheckFlag(current: nat, previous: Option<nat>) returns (flag: nat)
    ensures flag == ExceededCheck(current, previous)
  {
    flag := 0;
    if previous.Some? {
      if current > previous.value {
        flag := 1;
      }
    }
  }

  /** The first block of `_format_prometheus_metrics`: the volume totals,
      the two check flags computed from the earlier totals, and the
      instance totals. */
  method AddExceededMetrics(labels: string, lines: seq<string>, stats: SP.Stats,
                            prevIops: Option<nat>, prevTp: Option<nat>) returns (lines': seq<string>)
    ensures lines' == lines + Lines(labels, Head(stats, prevIops, prevTp))
  {
    lines' := lines;
    var m0 := Metric(VolumeIopsTotal, Decimal(stats.volumeExceededIops), TimeExceeded + VolumeIopsLimit, Counter);
    lines' := AddMetric(labels, lines', m0);
    var m1 := Metric(VolumeTpTotal, Decimal(stats.volumeExceededTp), TimeExceeded + VolumeTpLimit, Counter);
    lines' := AddMetric(labels, lines', m1);
    var iopsCheck := CheckFlag(stats.volumeExceededIops, prevIops);
    var tpCheck := CheckFlag(stats.volumeExceededTp, prevTp);
    var m2 := Metric(TpCheck, Decimal(tpCheck), TpCheckHelp, Gauge);
    lines' := AddMetric(labels, lines', m2);
    var m3 := Metric(IopsCheck, Decimal(iopsCheck), IopsCheckHelp, Gauge);
    lines' := AddMetric(labels, lines', m3);
    var m4 := Metric(InstanceIopsTotal, Decimal(stats.instanceExceededIops), TimeExceeded + InstanceIopsLimit, Counter);
    lines' := AddMetric(labels, lines', m4);
    var m5 := Metric(InstanceTpTotal, Decimal(stats.instanceExceededTp), TimeExceeded + InstanceTpLimit, Counter);
    lines' := AddMetric(labels, lines', m5);
    LinesOfSix(labels, lines, Head(stats, prevIops, prevTp));
  }

  /** The percentages, added only when the interval is positive. */
  method AddRateMetrics(labels: string, lines: seq<string>, stats: SP.Stats, interval: real, show: real -> string)
    returns (lines': seq<string>)
    requires interval > 0.0
    ensures lines' == lines + Lines(labels, Rates(stats, interval, show))
  {
    var intervalUs := interval * 1000000.0;
    assert intervalUs > 0.0;
    lines' := lines;
    var r0 := Metric(VolumeIopsPercent, show(stats.volumeExceededIops as real / intervalUs * 100.0),
                     ShareExceeded + VolumeIopsLimit + DuringInterval, Gauge);
    lines' := AddMetric(labels, lines', r0);
    var r1 := Metric(VolumeTpPercent, show(stats.volumeExceededTp as real / intervalUs * 100.0),
                     ShareExceeded + VolumeTpLimit + DuringInterval, Gauge);
    lines' := AddMetric(labels, lines', r1);
    var r2 := Metric(InstanceIopsPercent, show(stats.instanceExceededIops as real / intervalUs * 100.0),
                     ShareExceeded + InstanceIopsLimit + DuringInterval, Gauge);
    lines' := AddMetric(labels, lines', r2);
    var r3 := Metric(InstanceTpPercent, show(stats.instanceExceededTp as real / intervalUs * 100.0),
                     ShareExceeded + InstanceTpLimit + DuringInterval, Gauge);
    lines' := AddMetric(labels, lines', r3);
    LinesOfFour(labels, lines, Rates(stats, interval, show));
  }

  /** The closing block: the read and write counters and the queue length. */
  method AddCounterMetrics(labels: string, lines: seq<string>, stats: SP.Stats) returns (lines': seq<string>)
    ensures lines' == lines + Lines(labels, Tail(stats))
  {
    lines' := lines;
    var t0 := Metric(ReadOpsTotal, Decimal(stats.totalReadOps), "Total number of read operations", Counter);
    lines' := AddMetric(labels, lines', t0);
    var t1 := Metric(WriteOpsTotal, Decimal(stats.totalWriteOps), "Total number of write operations", Counter);
    lines' := AddMetric(labels, lines', t1);
    var t2 := Metric(ReadBytesTotal, Decimal(stats.totalReadBytes), "Total bytes read", Counter);
    lines' := AddMetric(labels, lines', t2);
    var t3 := Metric(WriteBytesTotal, Decimal(stats.totalWriteBytes), "Total bytes written", Counter);
    lines' := AddMetric(labels, lines', t3);
    var t4 := Metric(QueueLength, Decimal(stats.volumeQueueLength), "Current volume queue length", Gauge);
    lines' := AddMetric(labels, lines', t4);
    LinesOfFive(labels, lines, Tail(stats));
  }

  /** `EBSPerformanceExporter`: the device it watches, where it writes, the
      volume id it resolved and the snapshot of the previous poll. */
  class EbsPerformanceExporter {
    const device: string
    const outputFile: Option<string>
    var volumeId: Option<string>
    var prevStats: Option<SP.Stats>
    var running: bool

    constructor (device: string, outputFile: Option<string>)
      ensures this.device == device && this.outputFile == outputFile
      ensures volumeId.None? && prevStats.None? && running
    {
      this.device := device;
      this.outputFile := outputFile;
      volumeId := None;
      prevStats := None;
      running := true;
    }

    /** `_nvme_ioctl`: open the node (an `OSError` escapes), submit the
        command, and end the process with status 1 when the ioctl fails. */
    method NvmeIoctl(host: Host, cmd: AC.Command, buf: array<byte>) returns (r: Py.PyOutcome<()>)
      requires buf.Length == cmd.alen
      modifies buf
      ensures Open(host, device).Err? ==>
        r == Py.Raised(Py.OSError(Open(host, device).error)) && buf[..] == old(buf[..])
      ensures Open(host, device).Ok? ==> buf[..] == AfterReply(old(buf[..]), host[device].answer(cmd))
      ensures Open(host, device).Ok? && host[device].answer(cmd).Failed? ==> r == Py.Exited(1)
      ensures Open(host, device).Ok? && host[device].answer(cmd).Filled? ==> r == Py.Returned(())
    {
      var dev := Open(host, device);
      if dev.Err? {
        return Py.Raised(Py.OSError(dev.error));
      }
      var errno := dev.value.Submit(cmd, buf);
      if errno != 0 {
        return Py.Exited(1);
      }
      r := Py.Returned(());
    }

    /** `_get_volume_id`. */
    method GetVolumeId(host: Host) returns (r: Py.PyOutcome<string>)
      ensures r == Py.IdentifyOutcome(host, device)
    {
      var idCtrl := new byte[Id.IdentifySize](_ => 0);
      assert idCtrl[..] == Zeros(Id.IdentifySize);
      var done := NvmeIoctl(host, Py.IdentifyCommand, idCtrl);
      match done
      case Raised(e) => return Py.Raised(e);
      case Exited(status) => return Py.Exited(status);
      case Returned(_) =>
        match Py.VolumeIdFromIdentify(device, Id.Decode(idCtrl[..]))
        case Err(e) => r := Py.Raised(e);
        case Ok(vol) => r := Py.Returned(vol);
    }

    /** `_query_stats`. */
    method QueryStats(host: Host) returns (r: Py.PyOutcome<SP.Stats>)
      ensures r == Py.StatsOutcome(host, device)
    {
      var stats := new byte[SP.StatsSize](_ => 0);
      assert stats[..] == Zeros(SP.StatsSize);
      var done := NvmeIoctl(host, Py.LogPageCommand, stats);
      match done
      case Raised(e) => return Py.Raised(e);
      case Exited(status) => return Py.Exited(status);
      case Returned(_) =>
        var page := SP.DecodeStats(stats[..]);
        if page.magic != SP.AmznNvmeStatsMagic {
          return Py.Raised(Py.TypeError(device));
        }
        r := Py.Returned(page);
    }

    /** `_calculate_diff`, field by field into a fresh record. */
    method CalculateDiff(curr: SP.Stats) returns (d: SP.Stats)
      ensures d == Diff(prevStats, curr)
    {
      if prevStats.None? {
        return curr;
      }
      var prev := prevStats.value;
      d := ZeroStats;
      d := d.(volumeQueueLength := curr.volumeQueueLength);
      d := d.(totalReadOps := Delta(curr.totalReadOps, prev.totalReadOps));
      d := d.(totalWriteOps := Delta(curr.totalWriteOps, prev.totalWriteOps));
      d := d.(totalReadBytes := Delta(curr.totalReadBytes, prev.totalReadBytes));
      d := d.(totalWriteBytes := Delta(curr.totalWriteBytes, prev.totalWriteBytes));
      d := d.(totalReadTime := Delta(curr.totalReadTime, prev.totalReadTime));
      d := d.(totalWriteTime := Delta(curr.totalWriteTime, prev.totalWriteTime));
      d := d.(volumeExceededIops := Delta(curr.volumeExceededIops, prev.volumeExceededIops));
      d := d.(volumeExceededTp := Delta(curr.volumeExceededTp, prev.volumeExceededTp));
      d := d.(instanceExceededIops := Delta(curr.instanceExceededIops, prev.instanceExceededIops));
      d := d.(instanceExceededTp := Delta(curr.instanceExceededTp, prev.instanceExceededTp));
      ghost var ds := Deltas(Counters(prev), Counters(curr));
      assert Counters(d) == ds;
      assert d == WithCounters(ds, curr.volumeQueueLength);
    }

    /** `_format_prometheus_metrics`: the `add_metric` calls append to
        `lines`, which are joined with line breaks. */
    method FormatPrometheusMetrics(stats: SP.Stats, interval: Option<real>, prevIops: Option<nat>,
                                   prevTp: Option<nat>, show: real -> string) returns (text: string)
      ensures text == Render(device, volumeId, stats, interval, prevIops, prevTp, show)
    {
      var labels := LabelText(DeviceName(device), VolumeLabel(volumeId));
      var lines: seq<string> := [];
      lines := AddExceededMetrics(labels, lines, stats, prevIops, prevTp);
      ghost var front := lines;
      if HasRates(interval) {
        lines := AddRateMetrics(labels, lines, stats, interval.value, show);
      }
      ghost var middle := lines;
      lines := AddCounterMetrics(labels, lines, stats);
      RenderInBlocks(device, volumeId, stats, interval, prevIops, prevTp, show, front, middle, lines);
      text := JoinLines(lines);
    }

    /** One pass of the loop of `export_continuous`: query the record, diff
        it against the previous one, keep it, and render the difference. */
    method PollOnce(poll: Host, interval: nat, show: real -> string) returns (content: Py.PyOutcome<string>)
      modifies this
      ensures volumeId == old(volumeId) && running == old(running)
      ensures Py.StatsOutcome(poll, device).Returned? ==>
        && prevStats == Some(Py.StatsOutcome(poll, device).value)
        && content == Py.Returned(ContinuousFrame(device, volumeId, interval, show)(old(prevStats),
                                                                                 Py.StatsOutcome(poll, device).value))
      ensures !Py.StatsOutcome(poll, device).Returned? ==> !content.Returned? && prevStats == old(prevStats)
    {
      var curr := QueryStats(poll);
      if !curr.Returned? {
        return Py.Exited(1);
      }
      var text := NextFrame(curr.value, interval, show);
      content := Py.Returned(text);
    }

    /** The rest of that pass once a record came back: diff it against the
        previous one, keep it as the new previous one, and render the diff
        with the interval and no earlier totals. */
    method NextFrame(curr: SP.Stats, interval: nat, show: real -> string) returns (text: string)
      modifies this
      ensures volumeId == old(volumeId) && running == old(running) && prevStats == Some(curr)
      ensures text == ContinuousFrame(device, volumeId, interval, show)(old(prevStats), curr)
    {
      var diff := CalculateDiff(curr);
      prevStats := Some(curr);
      text := FormatPrometheusMetrics(diff, Some(interval as real), None, None, show);
    }

    /** `export_continuous`: resolve the volume id once, then poll: each
        poll's record is diffed against the previous one, kept as the new
        previous one, and rendered with the interval and no earlier totals.
        Any failure ends the process with status 1; the signal that stops
        the loop after the last poll clears `running` and exits with 0. */
    method ExportContinuous(host: Host, polls: seq<Host>, interval: nat, show: real -> string)
      returns (written: seq<string>, status: int)
      modifies this
      ensures !Py.IdentifyOutcome(host, device).Returned? ==>
        written == [] && status == 1 && volumeId == old(volumeId) && prevStats == old(prevStats)
      ensures Py.IdentifyOutcome(host, device).Returned? ==>
        volumeId == Some(Py.IdentifyOutcome(host, device).value)
      ensures Py.IdentifyOutcome(host, device).Returned? ==>
        var snaps := Snapshots(StatsQuery(device), polls);
        && written == Outputs(ContinuousFrame(device, volumeId, interval, show), old(prevStats), snaps)
        && status == (if |snaps| < |polls| then 1 else 0)
        && prevStats == Latest(old(prevStats), snaps)
      ensures status == 0 ==> !running
    {
      var vol := GetVolumeId(host);
      if !vol.Returned? {
        return [], 1;
      }
      volumeId := Some(vol.value);
      written, status := PollUntilStopped(polls, interval, show);
    }

    /** The `while self.running` loop of `export_continuous`, given the
        outcome of every poll until the stopping signal. */
    method PollUntilStopped(polls: seq<Host>, interval: nat, show: real -> string)
      returns (written: seq<string>, status: int)
      modifies this
      ensures volumeId == old(volumeId)
      ensures var snaps := Snapshots(StatsQuery(device), polls);
        && written == Outputs(ContinuousFrame(device, volumeId, interval, show), old(prevStats), snaps)
        && status == (if |snaps| < |polls| then 1 else 0)
        && prevStats == Latest(old(prevStats), snaps)
      ensures status == 0 ==> !running
    {
      ghost var snaps := Snapshots(StatsQuery(device), polls);
      ghost var first := prevStats;
      ghost var frame := ContinuousFrame(device, volumeId, interval, show);
      written := [];
      var i := 0;
      while i < |polls|
        invariant i <= |snaps|
        invariant volumeId == old(volumeId)
        invariant written == Outputs(frame, first, snaps[..i])
        invariant prevStats == Latest(first, snaps[..i])
      {
        SnapshotAt(StatsQuery(device), polls, i);
        var content := PollOnce(polls[i], interval, show);
        if !content.Returned? {
          TakeAll(snaps, i);
          return written, 1;
        }
        written := written + [content.value];
        OutputsSnoc(frame, first, snaps[..i], snaps[i]);
        TakeOneMore(snaps, i);
        i := i + 1;
      }
      TakeAll(snaps, i);
      running := false;
      status := 0;
    }
  }
}
