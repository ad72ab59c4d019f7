/** The Amazon EBS statistics log page (log identifier 0xD0, fetched with
    Get Log Page, section 5.14 of the NVM Express Base Specification 1.3):
    the Go structs `nvmeHistogramBin`, `ebsNVMEHistogram` and `EBSNVMEStats`,
    and the ctypes Structures `nvme_histogram_bin`, `ebs_nvme_histogram` and
    `nvme_get_amzn_stats_logpage`, which lay out the same bytes. */
module StatsLogPage {
  import opened Bytes
  import opened Layout

  const AmznNvmeStatsLogId: byte := 0xD0
  const AmznNvmeStatsMagic: u32 := 0x3C23B510

  // ---------------------------------------------------------------- bins

  datatype HistogramBin = HistogramBin(lower: u64, upper: u64, count: u32, reserved0: u32)

  const LowerField := Field("Lower", 0, 8)
  const UpperField := Field("Upper", 8, 8)
  const CountField := Field("Count", 16, 4)
  const BinReservedField := Field("Reserved0", 20, 4)
  const BinLayout: seq<Field> := [LowerField, UpperField, CountField, BinReservedField]

  const BinSize: nat := 24
  const BinCount: nat := 64

  function EncodeBin(x: HistogramBin): (b: seq<byte>)
    ensures |b| == BinSize
  {
    Le64(x.lower) + Le64(x.upper) + Le32(x.count) + Le32(x.reserved0)
  }

  function DecodeBin(b: seq<byte>): HistogramBin
    requires |b| == BinSize
  {
    HistogramBin(U64At(b, LowerField.offset), U64At(b, UpperField.offset),
                 U32At(b, CountField.offset), U32At(b, BinReservedField.offset))
  }

  lemma DecodeEncodeBin(x: HistogramBin)
    ensures DecodeBin(EncodeBin(x)) == x
  {
    var b := EncodeBin(x);
    ReadU64(b, 0, x.lower);
    ReadU64(b, 8, x.upper);
    ReadU32(b, 16, x.count);
    ReadU32(b, 20, x.reserved0);
  }

  lemma EncodeDecodeBin(b: seq<byte>)
    requires |b| == BinSize
    ensures EncodeBin(DecodeBin(b)) == b
  {
    WriteU64(b, 0);
    WriteU64(b, 8);
    WriteU32(b, 16);
    WriteU32(b, 20);
    assert EncodeBin(DecodeBin(b)) == b[0..8] + b[8..16] + b[16..20] + b[20..24];
    AdjacentSlices(b, 0, 8, 16);
    AdjacentSlices(b, 0, 16, 20);
    AdjacentSlices(b, 0, 20, 24);
  }

  /** An array of bins, laid out one after another. */
  function EncodeBins(bins: seq<HistogramBin>): (b: seq<byte>)
    ensures |b| == BinSize * |bins|
  {
    if bins == [] then [] else EncodeBin(bins[0]) + EncodeBins(bins[1..])
  }

  /** Reading an array of bins from its image, 24 bytes per bin. */
  function DecodeBins(b: seq<byte>): (bins: seq<HistogramBin>)
    requires |b| % BinSize == 0
    ensures |bins| == |b| / BinSize
    decreases |b|
  {
    if b == [] then [] else [DecodeBin(b[..BinSize])] + DecodeBins(b[BinSize..])
  }

  lemma {:induction false} DecodeEncodeBins(bins: seq<HistogramBin>)
    ensures DecodeBins(EncodeBins(bins)) == bins
  {
    if bins != [] {
      var b := EncodeBins(bins);
      assert b[..BinSize] == EncodeBin(bins[0]);
      assert b[BinSize..] == EncodeBins(bins[1..]);
      DecodeEncodeBin(bins[0]);
      DecodeEncodeBins(bins[1..]);
    }
  }

  lemma {:induction false} EncodeDecodeBins(b: seq<byte>)
    requires |b| % BinSize == 0
    ensures EncodeBins(DecodeBins(b)) == b
    decreases |b|
  {
    if b != [] {
      var bins := DecodeBins(b);
      assert bins[0] == DecodeBin(b[..BinSize]);
      assert bins[1..] == DecodeBins(b[BinSize..]);
      EncodeDecodeBin(b[..BinSize]);
      EncodeDecodeBins(b[BinSize..]);
      assert b == b[..BinSize] + b[BinSize..];
    }
  }

  /** Bin i of an array is read from bytes 24*i .. 24*i+23 of its image. */
  lemma {:induction false} BinAt(b: seq<byte>, i: nat)
    requires |b| % BinSize == 0 && i < |b| / BinSize
    ensures DecodeBins(b)[i] == DecodeBin(b[BinSize * i..BinSize * i + BinSize])
    decreases |b|
  {
    if i > 0 {
      BinAt(b[BinSize..], i - 1);
      var j := BinSize * (i - 1);
      assert BinSize + j == BinSize * i;
      assert b[BinSize..][j..j + BinSize] == b[BinSize + j..BinSize + j + BinSize];
    }
  }

  // ---------------------------------------------------------- histograms

  datatype Histogram = Histogram(numBins: u64, bins: seq<HistogramBin>)

  const NumBinsField := Field("NumBins", 0, 8)
  const BinsField := Field("Bins", 8, BinCount * BinSize)
  const HistogramLayout: seq<Field> := [NumBinsField, BinsField]
  const HistogramSize: nat := 1544

  /** The Go and ctypes declarations fix the array at 64 bins, whatever
      NumBins says. */
  predicate WellFormedHistogram(h: Histogram)
  {
    |h.bins| == BinCount
  }

  function EncodeHistogram(h: Histogram): (b: seq<byte>)
    requires WellFormedHistogram(h)
    ensures |b| == HistogramSize
  {
    Le64(h.numBins) + EncodeBins(h.bins)
  }

  function DecodeHistogram(b: seq<byte>): (h: Histogram)
    requires |b| == HistogramSize
    ensures WellFormedHistogram(h)
  {
    Histogram(U64At(b, NumBinsField.offset), DecodeBins(FieldBytes(b, BinsField)))
  }

  lemma DecodeEncodeHistogram(h: Histogram)
    requires WellFormedHistogram(h)
    ensures DecodeHistogram(EncodeHistogram(h)) == h
  {
    var b := EncodeHistogram(h);
    ReadU64(b, 0, h.numBins);
    assert FieldBytes(b, BinsField) == EncodeBins(h.bins);
    DecodeEncodeBins(h.bins);
  }

  lemma EncodeDecodeHistogram(b: seq<byte>)
    requires |b| == HistogramSize
    ensures EncodeHistogram(DecodeHistogram(b)) == b
  {
    WriteU64(b, 0);
    assert FieldBytes(b, BinsField) == b[8..];
    EncodeDecodeBins(b[8..]);
    assert b == b[0..8] + b[8..];
  }

  // ------------------------------------------------------------ log page

  const StatsSize: nat := 4096

  datatype Stats = Stats(
    magic: u32, reserved0: seq<byte>, totalReadOps: u64,
    totalWriteOps: u64, totalReadBytes: u64, totalWriteBytes: u64,
    totalReadTime: u64, totalWriteTime: u64, volumeExceededIops: u64,
    volumeExceededTp: u64, instanceExceededIops: u64, instanceExceededTp: u64,
    volumeQueueLength: u64, reserved1: seq<byte>, readLatency: Histogram,
    writeLatency: Histogram, reserved2: seq<byte>)

  const MagicField := Field("Magic", 0, 4)
  const Reserved0Field := Field("Reserved0", 4, 4)
  const TotalReadOpsField := Field("TotalReadOps", 8, 8)
  const TotalWriteOpsField := Field("TotalWriteOps", 16, 8)
  const TotalReadBytesField := Field("TotalReadBytes", 24, 8)
  const TotalWriteBytesField := Field("TotalWriteBytes", 32, 8)
  const TotalReadTimeField := Field("TotalReadTime", 40, 8)
  const TotalWriteTimeField := Field("TotalWriteTime", 48, 8)
  const VolumeExceededIopsField := Field("EBSVolumePerformanceExceededIOPS", 56, 8)
  const VolumeExceededTpField := Field("EBSVolumePerformanceExceededTP", 64, 8)
  const InstanceExceededIopsField := Field("EBSInstancePerformanceExceededIOPS", 72, 8)
  const InstanceExceededTpField := Field("EBSInstancePerformanceExceededTP", 80, 8)
  const VolumeQueueLengthField := Field("VolumeQueueLength", 88, 8)
  const Reserved1Field := Field("Reserved1", 96, 416)
  const ReadLatencyField := Field("ReadIOLatencyHistogram", 512, 1544)
  const WriteLatencyField := Field("WriteIOLatencyHistogram", 2056, 1544)
  const Reserved2Field := Field("Reserved2", 3600, 496)

  const StatsLayout: seq<Field> := [
    MagicField, Reserved0Field, TotalReadOpsField, TotalWriteOpsField,
    TotalReadBytesField, TotalWriteBytesField, TotalReadTimeField, TotalWriteTimeField,
    VolumeExceededIopsField, VolumeExceededTpField, InstanceExceededIopsField, InstanceExceededTpField,
    VolumeQueueLengthField, Reserved1Field, ReadLatencyField, WriteLatencyField,
    Reserved2Field]

  /** The in-memory image of the log page. */
  function EncodeStats(s: Stats): (b: seq<byte>)
    requires WellFormedStats(s)
    ensures |b| == StatsSize
  {
    Le32(s.magic) + s.reserved0 + Le64(s.totalReadOps) + Le64(s.totalWriteOps)
    + Le64(s.totalReadBytes) + Le64(s.totalWriteBytes) + Le64(s.totalReadTime)
    + Le64(s.totalWriteTime) + Le64(s.volumeExceededIops) + Le64(s.volumeExceededTp)
    + Le64(s.instanceExceededIops) + Le64(s.instanceExceededTp) + Le64(s.volumeQueueLength)
    + s.reserved1 + EncodeHistogram(s.readLatency) + EncodeHistogram(s.writeLatency) + s.reserved2
  }

  /** Reading the log page field by field at the offsets of StatsLayout. */
  function DecodeStats(b: seq<byte>): (s: Stats)
    requires |b| == StatsSize
    ensures WellFormedStats(s)
  {
    Stats(
      U32At(b, MagicField.offset),
      FieldBytes(b, Reserved0Field),
      U64At(b, TotalReadOpsField.offset),
      U64At(b, TotalWriteOpsField.offset),
      U64At(b, TotalReadBytesField.offset),
      U64At(b, TotalWriteBytesField.offset),
      U64At(b, TotalReadTimeField.offset),
      U64At(b, TotalWriteTimeField.offset),
      U64At(b, VolumeExceededIopsField.offset),
      U64At(b, VolumeExceededTpField.offset),
      U64At(b, InstanceExceededIopsField.offset),
      U64At(b, InstanceExceededTpField.offset),
      U64At(b, VolumeQueueLengthField.offset),
      FieldBytes(b, Reserved1Field),
      DecodeHistogram(FieldBytes(b, ReadLatencyField)),
      DecodeHistogram(FieldBytes(b, WriteLatencyField)),
      FieldBytes(b, Reserved2Field))
  }

  lemma DecodeEncodeStats(s: Stats)
    requires WellFormedStats(s)
    ensures DecodeStats(EncodeStats(s)) == s
  {
    var b := EncodeStats(s);
    var q0 := Le32(s.magic);
    var q1 := q0 + s.reserved0;
    var q2 := q1 + Le64(s.totalReadOps);
    var q3 := q2 + Le64(s.totalWriteOps);
    var q4 := q3 + Le64(s.totalReadBytes);
    var q5 := q4 + Le64(s.totalWriteBytes);
    var q6 := q5 + Le64(s.totalReadTime);
    var q7 := q6 + Le64(s.totalWriteTime);
    var q8 := q7 + Le64(s.volumeExceededIops);
    var q9 := q8 + Le64(s.volumeExceededTp);
    var q10 := q9 + Le64(s.instanceExceededIops);
    var q11 := q10 + Le64(s.instanceExceededTp);
    var q12 := q11 + Le64(s.volumeQueueLength);
    var q13 := q12 + s.reserved1;
    var q14 := q13 + EncodeHistogram(s.readLatency);
    var q15 := q14 + EncodeHistogram(s.writeLatency);
    var q16 := q15 + s.reserved2;
    assert b[..|q16|] == q16;
    PrefixField(b, q15, s.reserved2);
    PrefixField(b, q14, EncodeHistogram(s.writeLatency));
    PrefixField(b, q13, EncodeHistogram(s.readLatency));
    PrefixField(b, q12, s.reserved1);
    PrefixField(b, q11, Le64(s.volumeQueueLength));
    PrefixField(b, q10, Le64(s.instanceExceededTp));
    PrefixField(b, q9, Le64(s.instanceExceededIops));
    PrefixField(b, q8, Le64(s.volumeExceededTp));
    PrefixField(b, q7, Le64(s.volumeExceededIops));
    PrefixField(b, q6, Le64(s.totalWriteTime));
    PrefixField(b, q5, Le64(s.totalReadTime));
    PrefixField(b, q4, Le64(s.totalWriteBytes));
    PrefixField(b, q3, Le64(s.totalReadBytes));
    PrefixField(b, q2, Le64(s.totalWriteOps));
    PrefixField(b, q1, Le64(s.totalReadOps));
    PrefixField(b, q0, s.reserved0);
    ReadU32(b, 0, s.magic);
    ReadU64(b, 8, s.totalReadOps);
    ReadU64(b, 16, s.totalWriteOps);
    ReadU64(b, 24, s.totalReadBytes);
    ReadU64(b, 32, s.totalWriteBytes);
    ReadU64(b, 40, s.totalReadTime);
    ReadU64(b, 48, s.totalWriteTime);
    ReadU64(b, 56, s.volumeExceededIops);
    ReadU64(b, 64, s.volumeExceededTp);
    ReadU64(b, 72, s.instanceExceededIops);
    ReadU64(b, 80, s.instanceExceededTp);
    ReadU64(b, 88, s.volumeQueueLength);
    DecodeEncodeHistogram(s.readLatency);
    DecodeEncodeHistogram(s.writeLatency);
  }

  lemma EncodeDecodeStats(b: seq<byte>)
    requires |b| == StatsSize
    ensures EncodeStats(DecodeStats(b)) == b
  {
    WriteU32(b, 0);
    WriteU64(b, 8);
    WriteU64(b, 16);
    WriteU64(b, 24);
    WriteU64(b, 32);
    WriteU64(b, 40);
    WriteU64(b, 48);
    WriteU64(b, 56);
    WriteU64(b, 64);
    WriteU64(b, 72);
    WriteU64(b, 80);
    WriteU64(b, 88);
    EncodeDecodeHistogram(b[512..2056]);
    EncodeDecodeHistogram(b[2056..3600]);
    assert EncodeStats(DecodeStats(b)) == b[0..4] + b[4..8] + b[8..16] + b[16..24] + b[24..32]
      + b[32..40] + b[40..48] + b[48..56] + b[56..64] + b[64..72] + b[72..80] + b[80..88]
      + b[88..96] + b[96..512] + b[512..2056] + b[2056..3600] + b[3600..4096];
    AdjacentSlices(b, 0, 4, 8);
    AdjacentSlices(b, 0, 8, 16);
    AdjacentSlices(b, 0, 16, 24);
    AdjacentSlices(b, 0, 24, 32);
    AdjacentSlices(b, 0, 32, 40);
    AdjacentSlices(b, 0, 40, 48);
    AdjacentSlices(b, 0, 48, 56);
    AdjacentSlices(b, 0, 56, 64);
    AdjacentSlices(b, 0, 64, 72);
    AdjacentSlices(b, 0, 72, 80);
    AdjacentSlices(b, 0, 80, 88);
    AdjacentSlices(b, 0, 88, 96);
    AdjacentSlices(b, 0, 96, 512);
    AdjacentSlices(b, 0, 512, 2056);
    AdjacentSlices(b, 0, 2056, 3600);
    AdjacentSlices(b, 0, 3600, 4096);
  }

  predicate WellFormedStats(s: Stats)
  {
    && |s.reserved0| == Reserved0Field.width
    && |s.reserved1| == Reserved1Field.width
    && WellFormedHistogram(s.readLatency)
    && WellFormedHistogram(s.writeLatency)
    && |s.reserved2| == Reserved2Field.width
  }

  /** The three tables tile their records: a bin is 24 bytes, a histogram
      8 + 64 * 24 = 1544 bytes, and the log page 4096 bytes with Magic at 0,
      the eleven 8-byte counters at 8..95, the read histogram at 512, the
      write histogram at 2056 and Reserved2 at 3600..4095. */
  lemma StatsLayoutContiguous()
    ensures Contiguous(BinLayout, BinSize)
    ensures Contiguous(HistogramLayout, HistogramSize) && HistogramSize == 8 + BinCount * BinSize
    ensures Contiguous(StatsLayout, StatsSize)
    ensures MagicField.offset == 0
    ensures forall k :: 2 <= k < 13 ==> StatsLayout[k].offset == 8 * (k - 1) && StatsLayout[k].width == 8
    ensures VolumeQueueLengthField.End() == 96
    ensures ReadLatencyField.offset == 512 && ReadLatencyField.width == HistogramSize
    ensures WriteLatencyField.offset == 2056 && WriteLatencyField.width == HistogramSize
    ensures Reserved2Field.offset == 3600 && Reserved2Field.End() == 4096
  {
    HistogramLayoutContiguous();
    StatsFieldsContiguous();
  }

  lemma HistogramLayoutContiguous()
    ensures Contiguous(BinLayout, BinSize)
    ensures Contiguous(HistogramLayout, HistogramSize) && HistogramSize == 8 + BinCount * BinSize
  {
  }

  lemma StatsFieldsContiguous()
    ensures Contiguous(StatsLayout, StatsSize)
    ensures MagicField.offset == 0
    ensures forall k :: 2 <= k < 13 ==> StatsLayout[k].offset == 8 * (k - 1) && StatsLayout[k].width == 8
    ensures VolumeQueueLengthField.End() == 96
    ensures ReadLatencyField.offset == 512 && ReadLatencyField.width == HistogramSize
    ensures WriteLatencyField.offset == 2056 && WriteLatencyField.width == HistogramSize
    ensures Reserved2Field.offset == 3600 && Reserved2Field.End() == 4096
  {
  }
}
