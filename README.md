# EBS NVMe statistics: decoder and exporter, in Dafny

This project models two parts of the EBS metrics exporter.

The first is its decoder for Amazon EBS NVMe devices. It exists twice:

- the Go package `nvme` (`pkg/nvme/nvme.go`);
- its Python twin inside `ebs_script.py`, which goes through ctypes.

The decoder opens a device node and sends the NVMe admin command *Identify
Controller*. It checks the vendor id (0x1D0F) and the model number ("Amazon
Elastic Block Store"), then takes the volume id from the serial number. The
rule is that "vol" not followed by '-' gets one inserted. It reads the
4096-byte Amazon statistics log page (log id 0xD0, CDW10 0x040000D0) and
accepts it only when its magic number is 0x3C23B510.

The second part is the exporter logic of the script:

- the state-file path derived from the device;
- the counter differences between two polls, as the `c_uint64` fields store them;
- the two "exceeded check" flags;
- the Prometheus text exposition it writes;
- the regular-expression read-back of an earlier output file;
- the `export_continuous` loop that keeps the previous snapshot.

Modules, one per file:

| file | module | what it holds |
|---|---|---|
| `bytes.dfy` | `Bytes` | fixed-width integers and their little-endian encoding |
| `layout.dfy` | `Layout` | field tables (name, offset, width) and contiguity |
| `wrappers.dfy` | `Wrappers` | `Option` and `Result` |
| `text.dfy` | `Text` | the string operations of both languages |
| `command.dfy` | `AdminCommand` | the admin command record and the ioctl request code |
| `identify.dfy` | `IdentifyController` | the Identify Controller record |
| `logpage.dfy` | `StatsLogPage` | histogram bins, histograms and the statistics log page |
| `ioctl.dfy` | `Ioctl` | the device: `open` and the admin-command ioctl |
| `nvme.dfy` | `Nvme` | the Go package |
| `script_decoder.dfy` | `ScriptDecoder` | the Python decoder, and how it differs from Go |
| `exposition.dfy` | `Exposition` | metric lines, `'\n'.join`, `split` and the read-back pattern |
| `exporter.dfy` | `Exporter` | the `EBSPerformanceExporter` class and its specification functions |

How each part is modelled:

- **Records.** Each wire record is a datatype with an `Encode`/`Decode` pair.
  Round trips are proved in both directions. The field tables are proved to
  tile the record exactly.
- **The device.** `Ioctl.Controller` is a class. It answers each admin
  command with an errno or a data block, and `Submit` copies that block into
  the caller's `array<byte>` with a loop.
- **Imperative operations.** The Go functions `getVolumeID`, `OpenDevice` and
  `QueryStats` are methods over buffers, and so are the Python methods of
  `EBSPerformanceExporter`. Each method is proved equal to a specification
  function, and the properties are proved about those functions.

The admin command is a 72-byte record: both declarations
(`pkg/nvme/nvme.go:24-41`, `ebs_script.py:54-71`) end with a 64-bit
`Reserved1` after `CDW15`, and 72 is the size the ioctl request code
`0xC0484E41` carries in bits 16-29.

The Go and Python decoders differ, and the model proves it:

- **"vol" then blanks.** Python applies the "vol" rule before stripping, so
  a serial of "vol" followed by blanks reads as "vol-" in Python and "vol"
  in Go.
- **Exactly "vol".** Python's `vol[3]` raises `IndexError` on a serial that
  is exactly "vol".
- **Leading NUL.** ctypes stops at the first NUL, so a model number that
  begins with a NUL byte is rejected by Python and accepted by Go.
- **Usual padding.** On fields padded the usual way (text, spaces, NULs) and
  any serial other than "vol", both accept the same devices and report the
  same volume id.

## Model

| member | source | states |
|---|---|---|
| AdminCommand.CommandLayoutContiguous | pkg/nvme/nvme.go:24-41 | the sixteen command fields follow one another without gap or overlap from byte 0 to byte 72, with CDW10 at offset 40 |
| AdminCommand.DecodeEncodeCommand | pkg/nvme/nvme.go:24-41 | reading every field of an encoded command at its table offset gives the command back |
| AdminCommand.EncodeDecodeCommand | ebs_script.py:54-71 | every 72-byte image is the encoding of the command read from it, so no byte lies outside a field |
| AdminCommand.AdminRequestCarriesCommandSize | pkg/nvme/nvme.go:16 | 0xC0484E41 is `_IOWR('N', 0x41, …)` over an argument of exactly one encoded command (72 bytes) |
| IdentifyController.IdentifyLayoutContiguous | pkg/nvme/nvme.go:44-79 | the 34 fields tile 4096 bytes, with VID at 0, SN at 4..23, MN at 24..63, PSD at 2048 and the vendor area at 3072..4095 |
| IdentifyController.AmazonVsLayoutFillsVs | ebs_script.py:74-77 | the Amazon vendor sub-structure (32-byte bdev, then reserved) fills the 1024-byte vendor area exactly |
| IdentifyController.DecodeEncodeIdentify | pkg/nvme/nvme.go:44-79 | decoding an encoded well-formed Identify record gives it back |
| IdentifyController.EncodeDecodeIdentify | ebs_script.py:80-115 | every 4096-byte image is the encoding of the record decoded from it |
| StatsLogPage.StatsLayoutContiguous | pkg/nvme/nvme.go:82-114 | a bin is 24 bytes; a histogram is 8 + 64·24 = 1544 bytes; the log page tiles 4096 bytes with the eleven counters at 8..95, the histograms at 512 and 2056, and Reserved2 at 3600..4095 |
| StatsLogPage.DecodeEncodeBin | pkg/nvme/nvme.go:82-87 | a histogram bin survives encoding and decoding |
| StatsLogPage.EncodeDecodeBin | ebs_script.py:118-123 | every 24-byte image is the encoding of the bin read from it |
| StatsLogPage.DecodeEncodeBins | pkg/nvme/nvme.go:92 | an array of bins survives encoding and decoding, whatever its length |
| StatsLogPage.EncodeDecodeBins | ebs_script.py:129 | every image whose length is a multiple of 24 is the encoding of the bins read from it |
| StatsLogPage.BinAt | pkg/nvme/nvme.go:92 | bin i of the array is read from bytes 24·i .. 24·i+23 |
| StatsLogPage.DecodeEncodeHistogram | pkg/nvme/nvme.go:90-93 | a histogram with 64 bins survives encoding and decoding |
| StatsLogPage.EncodeDecodeHistogram | ebs_script.py:126-129 | every 1544-byte image is the encoding of the histogram read from it |
| StatsLogPage.DecodeEncodeStats | pkg/nvme/nvme.go:96-114 | a well-formed log page survives encoding and decoding, field by field |
| StatsLogPage.EncodeDecodeStats | ebs_script.py:132-150 | every 4096-byte image is the encoding of the log page read from it |
| Ioctl.Controller.Submit | pkg/nvme/nvme.go:123-134 | the ioctl returns the controller's errno on failure and 0 on success; on success the data block has been copied over the buffer's prefix and the rest is unchanged |
| Ioctl.Open | pkg/nvme/nvme.go:139-142 | opening succeeds exactly when the node exists and opens; a missing node gives ENOENT |
| Ioctl.Answered | pkg/nvme/nvme.go:159-169 | a zero-initialised buffer after the ioctl holds the returned data, then zeros; after a failure it is all zeros |
| Nvme.IdentifyCommandFields | pkg/nvme/nvme.go:160-165 | the Identify command has opcode 0x06, NSID 0, CDW10 1 and a data length of 4096 bytes |
| Nvme.StatsCdw10Bits | pkg/nvme/nvme.go:205 | `0xD0` or-ed with `1024 << 16` is 0x040000D0: log id 0xD0 in the low byte and 1024 in bits 16-31 |
| Nvme.LogPageCommandFields | pkg/nvme/nvme.go:200-206 | the Get Log Page command has opcode 0x02, NSID 1, that CDW10, and 4096 = 1024·4 bytes of data |
| Nvme.GoTrimFieldOf | pkg/nvme/nvme.go:176 | `TrimSpace(string(bytes.Trim(f, "\x00")))` on a core padded by NULs and, inside them, white space gives exactly the core |
| Nvme.NormalizeVolumeId | pkg/nvme/nvme.go:183-186 | the result is the serial itself or the serial with '-' after "vol"; it differs from the serial exactly when the serial starts with "vol", is longer than 3 and has no '-' in position 3; a result starting with "vol" and longer than 3 has '-' in position 3; the "vol" prefix is kept or absent in both |
| Nvme.NormalizeIdempotent | pkg/nvme/nvme.go:183-186 | applying the rule twice is the same as once |
| Nvme.NormalizeExamples | pkg/nvme/nvme.go:184 | "vol1234567890abcdef" becomes "vol-1234567890abcdef"; "vol" and "vol-0abc" are left alone |
| Nvme.VolumeIdFromIdentify | pkg/nvme/nvme.go:171-188 | accepted exactly when the VID is 0x1D0F and the trimmed model is the EBS model; a wrong VID or a wrong model gives its own error; the id is the normalised trimmed serial, with no white space at either end |
| Nvme.IdentifyOutcome | pkg/nvme/nvme.go:167-169 | a failed Identify ioctl gives `IdentifyFailed` with its errno |
| Nvme.GetVolumeId | pkg/nvme/nvme.go:158-189 | an ioctl failure gives `IdentifyFailed`; otherwise the result is the checks applied to the record the device filled into a zeroed buffer |
| Nvme.OpenDevice | pkg/nvme/nvme.go:137-155 | an open failure, a volume-id failure (wrapped) or the device holding the path and the volume id |
| Nvme.CheckStatsPage | pkg/nvme/nvme.go:212-217 | a page is accepted exactly when its first four bytes hold 0x3C23B510; a rejected page reports its magic; an accepted one re-encodes to the page itself |
| Nvme.StatsOutcome | pkg/nvme/nvme.go:208-210 | a failed Get Log Page ioctl gives `GetLogPageFailed` with its errno |
| Nvme.Device.QueryStats | pkg/nvme/nvme.go:192-218 | an open failure gives `StatsOpenFailed`; otherwise the result is what the controller's answer leads to (ioctl error, bad magic, or the page) |
| ScriptDecoder.CommandsAgree | ebs_script.py:173-198 | the script sends exactly the Go package's two commands; the `c_uint32` CDW10 is 0x040000D0 |
| ScriptDecoder.FieldText | ebs_script.py:184 | a `c_char` array reads as the characters before the first NUL, one per byte |
| ScriptDecoder.Strip | ebs_script.py:187 | `str.strip()` leaves no Python white space at either end |
| ScriptDecoder.NormalizeSerial | ebs_script.py:185-186 | raises `IndexError` exactly on "vol"; on every other string it is the Go rule |
| ScriptDecoder.VolumeIdFromIdentify | ebs_script.py:181-187 | one `TypeError` exactly when the VID or the stripped model is wrong; otherwise the serial is normalised first and stripped after, and an accepted drive raises `IndexError` exactly when its serial reads "vol" |
| ScriptDecoder.IdentifyOutcome | ebs_script.py:170-187 | `open` failing raises `OSError`; a failed ioctl exits with status 1 |
| ScriptDecoder.StatsOutcome | ebs_script.py:189-204 | `open` failing raises `OSError`; a failed ioctl exits with 1; a returned record carries the magic |
| ScriptDecoder.StatsReadersAgree | ebs_script.py:199-204 | on an openable device, Python returns exactly when Go returns, and the same record; Python exits where Go reports the ioctl error, and raises where Go reports a bad magic |
| ScriptDecoder.PaddedFieldText | ebs_script.py:181 | on a field padded with spaces, then NULs, Go's trim and Python's decode-and-strip both give the core |
| ScriptDecoder.NormalizeThenStrip | ebs_script.py:184-187 | for a padded serial other than "vol", normalising then stripping equals the Go order (trim then normalise) |
| ScriptDecoder.VolumeIdsAgree | ebs_script.py:181-187 | on padded serial and model fields (serial not "vol"), the Go package and the script accept the same controllers and report the same id |
| ScriptDecoder.AmazonModel | ebs_script.py:181 | the padded EBS model passes both model checks |
| ScriptDecoder.VolThenBlankDiffers | ebs_script.py:185-187 | serial "vol" plus a blank: Go reports "vol", the script "vol-" |
| ScriptDecoder.BareVolDiffers | ebs_script.py:185 | serial exactly "vol": Go reports "vol", the script raises `IndexError` |
| ScriptDecoder.LeadingNulModelDiffers | ebs_script.py:181 | a model preceded by one NUL: Go accepts the drive, the script raises `TypeError` |
| Text.TrimOf | pkg/nvme/nvme.go:176 | trimming droppable padding from both sides of a core whose ends are not droppable gives the core |
| Text.TrimIdempotent | pkg/nvme/nvme.go:182 | trimming twice is trimming once |
| Text.CString | ebs_script.py:184 | the bytes ctypes returns are the prefix before the first NUL, with no NUL in them |
| Text.ReplaceCharAt | ebs_script.py:209 | `replace('/', '_')` maps the string character by character |
| Text.ParseDecimalOfDecimal | ebs_script.py:267 | `int(str(n)) == n` for every non-negative n |
| Exposition.LabelText | ebs_script.py:306-311 | the label text `device="…",volume_id="…"` starts with `device="`, has the two values plus 22 characters, and carries a brace only if a value does |
| Exposition.LinesSlices | ebs_script.py:313-316 | metric k of the output owns lines 4k..4k+3: HELP, TYPE, the sample line and a blank line |
| Exposition.SplitJoinLines | ebs_script.py:450 | splitting `'\n'.join(lines)` at line breaks gives the lines back when none holds a break |
| Exposition.JoinAppend | ebs_script.py:450 | joining two runs of lines puts exactly one break between them |
| Exposition.SearchNone | ebs_script.py:264 | `re.search` finds nothing exactly when the pattern matches at no position |
| Exposition.SearchFirst | ebs_script.py:264 | `re.search` returns the match at the leftmost matching position |
| Exposition.MatchSample | ebs_script.py:264 | the pattern matches a sample line `name{labels} value` (labels non-empty, with no '}') and its group holds the value |
| Exposition.MatchValueOf | ebs_script.py:264-267 | `\s+(\d+)` on a space and `str(v)` gives `v` back |
| Exposition.ReadBackFirstTwo | ebs_script.py:264-265 | searching a rendering for either of its first two metric names gives that metric's value |
| Exporter.DeviceName | ebs_script.py:302 | the device label is made of characters of the device path; a leading "/dev/" is dropped before the rest is labelled |
| Exporter.DeviceNameOfNode | ebs_script.py:302 | `/dev/<node>` is labelled `<node>` |
| Exporter.StateName | ebs_script.py:209 | the device label with every '/' turned into '_', and no '/' left |
| Exporter.StateFilePath | ebs_script.py:206-210 | the path is `/tmp/ebs_stats_<name>.json` and has no '/' after the directory |
| Exporter.StateFilePathOfNode | ebs_script.py:206-210 | `/dev/<node>` has the state file `/tmp/ebs_stats_<node>.json` |
| Exporter.StateFilesCollide | ebs_script.py:209 | `/dev/a/b` and `/dev/a_b` share a state file |
| Exporter.Wrap64 | ebs_script.py:284 | storing into a `c_uint64` keeps values in range and adds 2^64 to a negative difference |
| Exporter.Delta | ebs_script.py:284-293 | the stored difference added to the previous reading gives the current one modulo 2^64; it is the plain difference when the counter did not go down |
| Exporter.Deltas | ebs_script.py:284-293 | the same, counter by counter |
| Exporter.Diff | ebs_script.py:275-295 | no previous snapshot: the current record itself; otherwise a fresh record with the ten counter deltas, the current queue length, and zero magic, histograms and reserved bytes |
| Exporter.DiffCounter | ebs_script.py:284-293 | each of the ten counters of the diff is the wrapped difference of that counter |
| Exporter.DeltasTelescope | ebs_script.py:512-515 | summing the deltas a counter shows over successive polls recovers its last reading modulo 2^64, wrap-arounds included |
| Exporter.ExceededCheck | ebs_script.py:333-343 | the flag is 0 or 1, and 1 exactly when an earlier total exists and the current total is strictly larger |
| Exporter.MetricOrder | ebs_script.py:318-448 | the eleven metrics come in a fixed order, with the four percentages after the sixth exactly when the interval is positive |
| Exporter.MetricValues | ebs_script.py:319-357 | the volume totals carry the record's counters; the check flags are "0" or "1", and "1" exactly on an increase over the earlier totals; the last metric is the queue length |
| Exporter.ReadPreviousMetrics | ebs_script.py:253-273 | no output file, an empty name or a missing file give two Nones |
| Exporter.ReadBackTotals | ebs_script.py:263-268 | reading a rendering back gives the two volume totals it was rendered from, for any interval, earlier totals and percentage formatting, when device and volume id hold no brace |
| Exporter.ExceededAcrossRuns | ebs_script.py:333-343 | in a run reading an earlier run's output file, each check flag is 1 exactly when that total grew between the runs |
| Exporter.Snapshots | ebs_script.py:512-513 | a run of polls returns at most one record per poll |
| Exporter.SnapshotAt | ebs_script.py:512-513 | poll k before the end of the snapshots returned snapshot k; the poll right after them did not return |
| Exporter.Latest | ebs_script.py:514-515 | after any poll, the previous snapshot is the last record returned |
| Exporter.OutputsSnoc | ebs_script.py:512-518 | one more poll appends one more output, framed against the latest snapshot |
| Exporter.ContinuousChecksStayZero | ebs_script.py:517 | continuous mode passes no earlier totals, so both check flags are always "0" |
| Exporter.AddMetric | ebs_script.py:305-316 | an `add_metric` call appends exactly the metric's four lines |
| Exporter.CheckFlag | ebs_script.py:335-343 | the flag is computed as the exceeded check states |
| Exporter.AddExceededMetrics | ebs_script.py:318-372 | the first block appends the lines of the six head metrics (volume totals, both flags, instance totals) |
| Exporter.AddRateMetrics | ebs_script.py:375-412 | the rate block appends the lines of the four percentages |
| Exporter.AddCounterMetrics | ebs_script.py:414-448 | the last block appends the lines of the four read/write counters and the queue length |
| Exporter.RenderInBlocks | ebs_script.py:297-450 | the three blocks joined with breaks are the rendering of the whole metric list |
| Exporter.EbsPerformanceExporter.constructor | ebs_script.py:154-159 | a new exporter keeps device and output file, with no volume id, no previous snapshot, and running set |
| Exporter.EbsPerformanceExporter.NvmeIoctl | ebs_script.py:161-168 | open failing raises `OSError` and leaves the buffer; otherwise the buffer gets the reply, and a failed ioctl exits with 1 |
| Exporter.EbsPerformanceExporter.GetVolumeId | ebs_script.py:170-187 | `_get_volume_id` is the script's Identify outcome |
| Exporter.EbsPerformanceExporter.QueryStats | ebs_script.py:189-204 | `_query_stats` is the script's statistics outcome |
| Exporter.EbsPerformanceExporter.CalculateDiff | ebs_script.py:275-295 | the field-by-field updates of a fresh record equal `Diff` of the previous snapshot |
| Exporter.EbsPerformanceExporter.FormatPrometheusMetrics | ebs_script.py:297-450 | the appended and joined lines are the rendering of the metric list, whose order, values and read-back are proved above |
| Exporter.EbsPerformanceExporter.NextFrame | ebs_script.py:514-517 | the record becomes the previous snapshot, and the text is its diff against the old one, rendered with the interval and no earlier totals |
| Exporter.EbsPerformanceExporter.PollOnce | ebs_script.py:513-518 | a returned record is kept and framed; a failed query produces no output and leaves the previous snapshot |
| Exporter.EbsPerformanceExporter.PollUntilStopped | ebs_script.py:512-520 | the outputs are the frames of the records returned, each against the one before; status 1 if a poll failed, otherwise 0 with `running` cleared; the previous snapshot is the last record |
| Exporter.EbsPerformanceExporter.ExportContinuous | ebs_script.py:501-524 | a volume-id failure exits with 1 and writes nothing; otherwise the volume id is set and the polls behave as above |

## Left out

- The `open`, `ioctl` and `close` system calls are not modelled as such. A
  device is a `Controller`: an open errno plus a function from admin
  commands to replies. The data-buffer address (`Addr`) is the constant
  `Nvme.BufferAddress`, because a memory address has no meaning in the model.
- `MustOpenDevice` (`pkg/nvme/nvme.go:221-227`) only panics on
  `OpenDevice`'s error. Panics are not modelled.
- The collector, the aggregator, the metrics package, `main.go`, the
  controllers and the config are not part of this model.
- `_read_state_file`, `_write_state_file` and `export_once` are not modelled.
  They need the JSON state file and the clock. `_get_state_file_path` is
  modelled.
- `_write_metrics` and every `print` are not modelled; file writes and
  standard output are outside the model. Continuous mode returns the texts it
  would write, in order.
- Signals, `time.sleep` and the argument parser are not modelled.
  `PollUntilStopped` takes the finite sequence of device states the polls
  see, and the stopping signal arrives after the last poll. A signal in the
  middle of a poll is not modelled.
- `_read_previous_metrics` reads from a map from file names to contents.
  Read errors and its `except` path are not modelled.
- Exporter.EbsPerformanceExporter.FormatPrometheusMetrics: the percentage
  values are computed with Python floats and `round(x, 2)`. They appear as a
  parameter `show: real -> string` applied to the exact real quotient, so
  floating-point rounding is not modelled. Every integer value is exact.
- The interval of `export_once` is a time difference, which is not modelled.
  The `interval` parameter is an `Option<real>`.
- Text.Chars: `bytes.decode()` (UTF-8) and Go's `string([]byte)` are modelled
  as one character per byte. They agree on ASCII, which is what EBS drives report;
  non-ASCII serial or model bytes are not modelled.
- Text.PySpace: Python's `str.isspace` and `re`'s `\s` are modelled for
  characters below U+0100. `\d` is modelled for ASCII digits only, because
  every value the exporter writes is ASCII.
- Error messages are not modelled as text. Each `fmt.Errorf` site becomes a
  constructor of `Nvme.NvmeError`, and each Python exception a constructor of
  `ScriptDecoder.PyException`, with the values the message would show.
- The NVMe meaning of NUMDL, of the histogram bin bounds and of `num_bins` is
  not interpreted. The records are decoded as declared, with 64 bins whatever
  `num_bins` says.
