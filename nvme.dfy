/** The Go package `nvme`: opening an EBS NVMe device, resolving its volume
    id from the Identify Controller data, and reading the statistics log
    page. The ioctl itself is the abstract controller of module Ioctl. */
module Nvme {
  import opened Bytes
  import opened Wrappers
  import opened Text
  import opened Ioctl
  import AC = AdminCommand
  import Id = IdentifyController
  import SP = StatsLogPage

  const AmznNvmeEbsMn: string := "Amazon Elastic Block Store"
  const AmznNvmeVid: u16 := 0x1D0F

  /** The address of the data buffer, which the source takes from the
      buffer's location in memory; the model keeps one fixed value. */
  const BufferAddress: u64 := 0

  /** The errors the package returns, one per `fmt.Errorf` site. */
  datatype NvmeError =
    | OpenFailed(path: string, errno: Errno)
    | IdentifyFailed(errno: Errno)
    | NotAmazonDevice(vid: u16)
    | NotEbsDevice(model: string)
    | VolumeIdFailed(cause: NvmeError)
    | StatsOpenFailed(errno: Errno)
    | GetLogPageFailed(errno: Errno)
    | InvalidMagic(magic: u32)

  datatype Device = Device(path: string, volumeId: string)
  {
    /** `(*Device).QueryStats`: open the node again, fetch log page 0xD0 into
        a zeroed buffer and check its magic number. */
    method QueryStats(host: Host) returns (r: Result<SP.Stats, NvmeError>)
      ensures Open(host, path).Err? ==> r == Err(StatsOpenFailed(Open(host, path).error))
      ensures Open(host, path).Ok? ==> r == StatsOutcome(host[path])
    {
      var dev := Open(host, path);
      if dev.Err? {
        return Err(StatsOpenFailed(dev.error));
      }
      var buf := new byte[SP.StatsSize](_ => 0);
      assert buf[..] == Zeros(SP.StatsSize);
      var errno := dev.value.Submit(LogPageCommand, buf);
      if errno != 0 {
        return Err(GetLogPageFailed(errno));
      }
      r := CheckStatsPage(buf[..]);
    }
  }

  // ------------------------------------------------------------ commands

  /** The Identify command of `getVolumeID`: opcode 0x06, CNS 1 in CDW10,
      a 4096-byte buffer, every other field zero (NSID included). */
  const IdentifyCommand: AC.Command :=
    AC.ZeroCommand.(opcode := AC.NvmeAdminIdentify, addr := BufferAddress,
                    alen := Id.IdentifySize, cdw10 := 1)

  /** CDW10 of the statistics request: the log identifier in bits 0-7 and the
      literal 1024 in bits 16-31. */
  const StatsCdw10: u32 := ((SP.AmznNvmeStatsLogId as bv32) | ((1024 as bv32) << 16)) as int

  /** The Get Log Page command of `QueryStats`: opcode 0x02, NSID 1. */
  const LogPageCommand: AC.Command :=
    AC.ZeroCommand.(opcode := AC.NvmeGetLogPage, addr := BufferAddress,
                    alen := SP.StatsSize, nsid := 1, cdw10 := StatsCdw10)

  lemma IdentifyCommandFields()
    ensures IdentifyCommand.opcode == 0x06 && IdentifyCommand.nsid == 0
    ensures IdentifyCommand.cdw10 == 1 && IdentifyCommand.alen == 4096
    ensures IdentifyCommand.alen == Id.IdentifySize
  {
  }

  lemma StatsCdw10Bits()
    ensures StatsCdw10 == 0x0400_00D0
    ensures StatsCdw10 % 0x100 == SP.AmznNvmeStatsLogId && StatsCdw10 / 0x1_0000 == 1024
  {
    assert (0xD0 as bv32) | ((1024 as bv32) << 16) == 0x0400_00D0;
  }

  lemma LogPageCommandFields()
    ensures LogPageCommand.opcode == 0x02 && LogPageCommand.nsid == 1
    ensures LogPageCommand.cdw10 == StatsCdw10
    ensures LogPageCommand.alen == SP.StatsSize == 1024 * 4
  {
  }

  // ---------------------------------------------------------- volume id

  /** `strings.TrimSpace(string(bytes.Trim(field, "\x00")))`. */
  function GoTrimField(field: seq<byte>): (s: string)
    ensures |s| <= |field|
    ensures s != [] ==> !GoSpace(s[0]) && !GoSpace(s[|s| - 1])
  {
    Trim(Chars(Trim(field, IsNul)), GoSpace)
  }

  predicate AllNul(s: seq<byte>)
  {
    forall i :: 0 <= i < |s| ==> s[i] == 0
  }

  predicate AllGoSpace(s: seq<byte>)
  {
    forall i :: 0 <= i < |s| ==> GoSpace(s[i] as char)
  }

  /** A field padded on either side with NUL bytes and, inside them, white
      space trims to its core. */
  lemma GoTrimFieldOf(n1: seq<byte>, s1: seq<byte>, m: seq<byte>, s2: seq<byte>, n2: seq<byte>)
    requires AllNul(n1) && AllNul(n2) && AllGoSpace(s1) && AllGoSpace(s2)
    requires m != [] ==> m[0] != 0 && m[|m| - 1] != 0
    requires m != [] ==> !GoSpace(m[0] as char) && !GoSpace(m[|m| - 1] as char)
    ensures GoTrimField(n1 + s1 + m + s2 + n2) == Chars(m)
  {
    var mid := s1 + m + s2;
    Regroup(n1, s1, m, s2, n2);
    MiddleNotNul(s1, m, s2);
    NulPaddingTrimmed(n1, mid, n2);
    SpacePaddingTrimmed(s1, m, s2);
  }

  lemma Regroup<T>(n1: seq<T>, s1: seq<T>, m: seq<T>, s2: seq<T>, n2: seq<T>)
    ensures n1 + s1 + m + s2 + n2 == n1 + (s1 + m + s2) + n2
  {
  }

  lemma NulPaddingTrimmed(n1: seq<byte>, mid: seq<byte>, n2: seq<byte>)
    requires AllNul(n1) && AllNul(n2)
    requires mid != [] ==> mid[0] != 0 && mid[|mid| - 1] != 0
    ensures Trim(n1 + mid + n2, IsNul) == mid
  {
    TrimOf(n1, mid, n2, IsNul);
  }

  lemma SpacePaddingTrimmed(s1: seq<byte>, m: seq<byte>, s2: seq<byte>)
    requires AllGoSpace(s1) && AllGoSpace(s2)
    requires m != [] ==> !GoSpace(m[0] as char) && !GoSpace(m[|m| - 1] as char)
    ensures Trim(Chars(s1 + m + s2), GoSpace) == Chars(m)
  {
    CharsConcat(s1 + m, s2);
    CharsConcat(s1, m);
    var c1, cm, c2 := Chars(s1), Chars(m), Chars(s2);
    assert Chars(s1 + m + s2) == c1 + cm + c2;
    TrimOf(c1, cm, c2, GoSpace);
  }

  lemma MiddleNotNul(s1: seq<byte>, m: seq<byte>, s2: seq<byte>)
    requires AllGoSpace(s1) && AllGoSpace(s2)
    requires m != [] ==> m[0] != 0 && m[|m| - 1] != 0
    ensures var mid := s1 + m + s2; mid != [] ==> mid[0] != 0 && mid[|mid| - 1] != 0
  {
    var mid := s1 + m + s2;
    if mid != [] {
      if s1 != [] { assert mid[0] == s1[0]; } else if m != [] { assert mid[0] == m[0]; } else { assert mid[0] == s2[0]; }
      if s2 != [] { assert mid[|mid| - 1] == s2[|s2| - 1]; }
      else if m != [] { assert mid[|mid| - 1] == m[|m| - 1]; }
      else { assert mid[|mid| - 1] == s1[|s1| - 1]; }
    }
  }

  /** The serial-number rule of `getVolumeID`: a leading "vol" that is not
      already followed by '-' gets one inserted. */
  function NormalizeVolumeId(sn: string): (v: string)
    ensures v == sn || (|sn| > 3 && v == sn[..3] + "-" + sn[3..])
    ensures v != sn <==> HasPrefix(sn, "vol") && |sn| > 3 && sn[3] != '-'
    ensures HasPrefix(v, "vol") && |v| > 3 ==> v[3] == '-'
    ensures HasPrefix(sn, "vol") <==> HasPrefix(v, "vol")
  {
    if HasPrefix(sn, "vol") && |sn| > 3 && sn[3] != '-' then "vol-" + sn[3..] else sn
  }

  /** The rule never puts white space at either end of a serial that had none. */
  lemma NormalizeKeepsEnds(sn: string)
    requires sn != [] ==> !GoSpace(sn[0]) && !GoSpace(sn[|sn| - 1])
    ensures var v := NormalizeVolumeId(sn); v != [] ==> !GoSpace(v[0]) && !GoSpace(v[|v| - 1])
  {
    var v := NormalizeVolumeId(sn);
    if v != sn {
      assert v[0] == sn[0] && v[|v| - 1] == sn[|sn| - 1];
    }
  }

  lemma NormalizeIdempotent(sn: string)
    ensures NormalizeVolumeId(NormalizeVolumeId(sn)) == NormalizeVolumeId(sn)
  {
  }

  lemma NormalizeExamples()
    ensures NormalizeVolumeId("vol1234567890abcdef") == "vol-1234567890abcdef"
    ensures NormalizeVolumeId("vol") == "vol"
    ensures NormalizeVolumeId("vol-0abc") == "vol-0abc"
  {
  }

  /** The checks `getVolumeID` makes on the Identify Controller data once
      the ioctl has succeeded. */
  function VolumeIdFromIdentify(c: Id.IdentifyController): (r: Result<string, NvmeError>)
    ensures r.Ok? <==> c.vid == AmznNvmeVid && GoTrimField(c.mn) == AmznNvmeEbsMn
    ensures c.vid != AmznNvmeVid ==> r == Err(NotAmazonDevice(c.vid))
    ensures c.vid == AmznNvmeVid && r.Err? ==> r == Err(NotEbsDevice(GoTrimField(c.mn)))
    ensures r.Ok? ==> r.value == NormalizeVolumeId(GoTrimField(c.sn))
    ensures r.Ok? && r.value != [] ==> !GoSpace(r.value[0]) && !GoSpace(r.value[|r.value| - 1])
  {
    if c.vid != AmznNvmeVid then Err(NotAmazonDevice(c.vid))
    else
      var mn := GoTrimField(c.mn);
      if mn != AmznNvmeEbsMn then Err(NotEbsDevice(mn))
      else
        NormalizeKeepsEnds(GoTrimField(c.sn));
        Ok(NormalizeVolumeId(GoTrimField(c.sn)))
  }

  /** What `getVolumeID` returns for a controller, ioctl failure included. */
  function IdentifyOutcome(dev: Controller): (r: Result<string, NvmeError>)
    ensures dev.answer(IdentifyCommand).Failed? ==>
      r == Err(IdentifyFailed(dev.answer(IdentifyCommand).errno))
  {
    match dev.answer(IdentifyCommand)
    case Failed(e) => Err(IdentifyFailed(e))
    case Filled(_) => VolumeIdFromIdentify(Id.Decode(Answered(dev, IdentifyCommand)))
  }

  /** `getVolumeID`: Identify into a zeroed buffer, then the checks. */
  method GetVolumeId(dev: Controller) returns (r: Result<string, NvmeError>)
    ensures dev.answer(IdentifyCommand).Failed? ==>
      r == Err(IdentifyFailed(dev.answer(IdentifyCommand).errno))
    ensures dev.answer(IdentifyCommand).Filled? ==>
      r == VolumeIdFromIdentify(Id.Decode(Answered(dev, IdentifyCommand)))
  {
    var buf := new byte[Id.IdentifySize](_ => 0);
    assert buf[..] == Zeros(Id.IdentifySize);
    var errno := dev.Submit(IdentifyCommand, buf);
    if errno != 0 {
      return Err(IdentifyFailed(errno));
    }
    r := VolumeIdFromIdentify(Id.Decode(buf[..]));
  }

  /** `OpenDevice`: open the node, resolve the volume id, and keep both. */
  method OpenDevice(host: Host, path: string) returns (r: Result<Device, NvmeError>)
    ensures Open(host, path).Err? ==> r == Err(OpenFailed(path, Open(host, path).error))
    ensures Open(host, path).Ok? && IdentifyOutcome(host[path]).Err? ==>
      r == Err(VolumeIdFailed(IdentifyOutcome(host[path]).error))
    ensures Open(host, path).Ok? && IdentifyOutcome(host[path]).Ok? ==>
      r == Ok(Device(path, IdentifyOutcome(host[path]).value))
  {
    var dev := Open(host, path);
    if dev.Err? {
      return Err(OpenFailed(path, dev.error));
    }
    var v := GetVolumeId(dev.value);
    if v.Err? {
      return Err(VolumeIdFailed(v.error));
    }
    r := Ok(Device(path, v.value));
  }

  // -------------------------------------------------------------- stats

  /** The magic-number check of `QueryStats`: a page is accepted exactly
      when its first four bytes hold 0x3C23B510, and an accepted page is
      returned field for field as the device wrote it. */
  function CheckStatsPage(page: seq<byte>): (r: Result<SP.Stats, NvmeError>)
    requires |page| == SP.StatsSize
    ensures r.Ok? <==> U32At(page, 0) == SP.AmznNvmeStatsMagic
    ensures r.Err? ==> r.error == InvalidMagic(U32At(page, 0))
    ensures r.Ok? ==> r.value.magic == SP.AmznNvmeStatsMagic && SP.WellFormedStats(r.value)
    ensures r.Ok? ==> SP.EncodeStats(r.value) == page
  {
    var s := SP.DecodeStats(page);
    SP.EncodeDecodeStats(page);
    if s.magic != SP.AmznNvmeStatsMagic then Err(InvalidMagic(s.magic)) else Ok(s)
  }

  /** What `QueryStats` returns once the node is open. */
  function StatsOutcome(dev: Controller): (r: Result<SP.Stats, NvmeError>)
    ensures dev.answer(LogPageCommand).Failed? ==>
      r == Err(GetLogPageFailed(dev.answer(LogPageCommand).errno))
  {
    match dev.answer(LogPageCommand)
    case Failed(e) => Err(GetLogPageFailed(e))
    case Filled(_) => CheckStatsPage(Answered(dev, LogPageCommand))
  }
}
