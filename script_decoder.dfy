/** The Python twin of the decoder in the exporter script: the same admin
    commands and layouts read through ctypes, a different volume-id rule, and
    Python's way of failing (an exception, or `sys.exit(1)` when the ioctl
    itself fails). */
module ScriptDecoder {
  import opened Bytes
  import opened Wrappers
  import opened Text
  import opened Ioctl
  import AC = AdminCommand
  import Id = IdentifyController
  import SP = StatsLogPage
  import Go = Nvme

  /** The exceptions the script raises: the `TypeError` "Not an EBS device"
      for the device path, the `IndexError` of `vol[3]`, and the `OSError`
      of `open`. */
  datatype PyException = TypeError(device: string) | IndexError | OSError(errno: Errno)

  /** How a call ends: a value, an exception, or `sys.exit(status)`. */
  datatype PyOutcome<T> = Returned(value: T) | Raised(exception: PyException) | Exited(status: int)

  // ------------------------------------------------------------ commands

  /** `nvme_admin_command(opcode=NVME_ADMIN_IDENTIFY, addr=…, alen=sizeof(id_ctrl), cdw10=1)`. */
  const IdentifyCommand: AC.Command :=
    AC.ZeroCommand.(opcode := AC.NvmeAdminIdentify, addr := Go.BufferAddress,
                    alen := Id.IdentifySize, cdw10 := 1)

  /** `AMZN_NVME_STATS_LOGPAGE_ID | (1024 << 16)` on Python integers, stored
      into the `c_uint32` field `cdw10`, which keeps the low 32 bits. */
  const StatsCdw10: u32 :=
    (((SP.AmznNvmeStatsLogId as bv64) | ((1024 as bv64) << 16)) as int) % 0x1_0000_0000

  /** `nvme_admin_command(opcode=NVME_GET_LOG_PAGE, addr=…, alen=sizeof(stats), nsid=1, cdw10=…)`. */
  const LogPageCommand: AC.Command :=
    AC.ZeroCommand.(opcode := AC.NvmeGetLogPage, addr := Go.BufferAddress,
                    alen := SP.StatsSize, nsid := 1, cdw10 := StatsCdw10)

  /** The script sends the device exactly the commands the Go package sends. */
  lemma CommandsAgree()
    ensures IdentifyCommand == Go.IdentifyCommand
    ensures LogPageCommand == Go.LogPageCommand
    ensures LogPageCommand.cdw10 == 0x0400_00D0
  {
    assert (0xD0 as bv64) | ((1024 as bv64) << 16) == 0x0400_00D0;
    Go.StatsCdw10Bits();
  }

  // ---------------------------------------------------------- volume id

  /** A `c_char` array field as the script sees it: ctypes returns the bytes
      before the first NUL, and `.decode()` turns them into a string. */
  function FieldText(field: seq<byte>): (s: string)
    ensures |s| <= |field|
    ensures forall i :: 0 <= i < |s| ==> s[i] != '\0' && s[i] == field[i] as char
  {
    Chars(CString(field))
  }

  /** `str.strip()`. */
  function Strip(s: string): (r: string)
    ensures |r| <= |s|
    ensures r != [] ==> !PySpace(r[0]) && !PySpace(r[|r| - 1])
  {
    Trim(s, PySpace)
  }

  /** `if vol.startswith("vol") and vol[3] != "-": vol = "vol-" + vol[3:]`.
      The index is taken whenever the prefix is there, so "vol" itself
      raises; on every other string the rule is the Go package's. */
  function NormalizeSerial(vol: string): (r: Result<string, PyException>)
    ensures r.Err? <==> vol == "vol"
    ensures r.Err? ==> r.error == IndexError
    ensures vol != "vol" ==> r == Ok(Go.NormalizeVolumeId(vol))
  {
    if HasPrefix(vol, "vol") then
      if |vol| == 3 then Err(IndexError)
      else if vol[3] != '-' then Ok("vol-" + vol[3..])
      else Ok(vol)
    else Ok(vol)
  }

  /** The checks `_get_volume_id` makes once the ioctl has filled `id_ctrl`:
      one `TypeError` for either a foreign vendor or a foreign model, then
      the serial is normalised and only then stripped. */
  function VolumeIdFromIdentify(device: string, c: Id.IdentifyController): (r: Result<string, PyException>)
    ensures c.vid != Go.AmznNvmeVid || Strip(FieldText(c.mn)) != Go.AmznNvmeEbsMn <==> r == Err(TypeError(device))
    ensures r.Ok? ==> c.vid == Go.AmznNvmeVid && Strip(FieldText(c.mn)) == Go.AmznNvmeEbsMn
    ensures r.Err? && r.error != TypeError(device) ==> FieldText(c.sn) == "vol" && r.error == IndexError
    ensures c.vid == Go.AmznNvmeVid && Strip(FieldText(c.mn)) == Go.AmznNvmeEbsMn ==>
              (FieldText(c.sn) == "vol" <==> r == Err(IndexError))
    ensures r.Ok? ==> r.value == Strip(Go.NormalizeVolumeId(FieldText(c.sn)))
    ensures r.Ok? && r.value != [] ==> !PySpace(r.value[0]) && !PySpace(r.value[|r.value| - 1])
  {
    if c.vid != Go.AmznNvmeVid || Strip(FieldText(c.mn)) != Go.AmznNvmeEbsMn then Err(TypeError(device))
    else
      match NormalizeSerial(FieldText(c.sn))
      case Err(e) => Err(e)
      case Ok(vol) => Ok(Strip(vol))
  }

  /** What `_get_volume_id` returns: `open` raises `OSError`, a failed ioctl
      ends the process with status 1. */
  function IdentifyOutcome(host: Host, device: string): (r: PyOutcome<string>)
    ensures Open(host, device).Err? ==> r == Raised(OSError(Open(host, device).error))
    ensures Open(host, device).Ok? && host[device].answer(IdentifyCommand).Failed? ==> r == Exited(1)
  {
    match Open(host, device)
    case Err(e) => Raised(OSError(e))
    case Ok(dev) =>
      if dev.answer(IdentifyCommand).Failed? then Exited(1)
      else
        match VolumeIdFromIdentify(device, Id.Decode(Answered(dev, IdentifyCommand)))
        case Err(e) => Raised(e)
        case Ok(v) => Returned(v)
  }

  // -------------------------------------------------------------- stats

  /** What `_query_stats` returns: the record as the device wrote it when
      `_magic` is 0x3C23B510, otherwise the `TypeError`. */
  function StatsOutcome(host: Host, device: string): (r: PyOutcome<SP.Stats>)
    ensures Open(host, device).Err? ==> r == Raised(OSError(Open(host, device).error))
    ensures Open(host, device).Ok? && host[device].answer(LogPageCommand).Failed? ==> r == Exited(1)
    ensures r.Returned? ==> r.value.magic == SP.AmznNvmeStatsMagic
  {
    match Open(host, device)
    case Err(e) => Raised(OSError(e))
    case Ok(dev) =>
      if dev.answer(LogPageCommand).Failed? then Exited(1)
      else
        var page := Answered(dev, LogPageCommand);
        var stats := SP.DecodeStats(page);
        if stats.magic != SP.AmznNvmeStatsMagic then Raised(TypeError(device)) else Returned(stats)
  }

  /** Both readers accept the same pages and return the same record; where
      Go reports a failed ioctl the script exits with status 1, and where Go
      reports a bad magic number the script raises its `TypeError`. */
  lemma StatsReadersAgree(host: Host, device: string)
    requires Open(host, device).Ok?
    ensures var py, go := StatsOutcome(host, device), Go.StatsOutcome(host[device]);
      && (py.Returned? <==> go.Ok?)
      && (py.Returned? ==> py.value == go.value)
      && (py.Exited? <==> go.Err? && go.error.GetLogPageFailed?)
      && (py.Raised? <==> go.Err? && go.error.InvalidMagic?)
  {
    CommandsAgree();
  }

  // ------------------------------------------ the two volume-id rules compared

  /** A text field the usual way: a core with no NUL and no white space at
      either end, then ASCII spaces, then NUL bytes. */
  predicate Padded(field: seq<byte>, core: seq<byte>, spaces: seq<byte>, nuls: seq<byte>)
  {
    && field == core + spaces + nuls
    && (forall i :: 0 <= i < |core| ==> core[i] != 0)
    && (core != [] ==> !PySpace(core[0] as char) && !PySpace(core[|core| - 1] as char))
    && Go.AllGoSpace(spaces) && Go.AllNul(nuls)
  }

  /** Both readers see the core of a padded field. */
  lemma PaddedFieldText(field: seq<byte>, core: seq<byte>, spaces: seq<byte>, nuls: seq<byte>)
    requires Padded(field, core, spaces, nuls)
    ensures Go.GoTrimField(field) == Chars(core)
    ensures Strip(FieldText(field)) == Chars(core)
    ensures FieldText(field) == Chars(core) + Chars(spaces)
  {
    GoSideOfPadded(field, core, spaces, nuls);
    PySideOfPadded(field, core, spaces, nuls);
    StripPadded(Chars(core), Chars(spaces));
  }

  lemma GoSideOfPadded(field: seq<byte>, core: seq<byte>, spaces: seq<byte>, nuls: seq<byte>)
    requires Padded(field, core, spaces, nuls)
    ensures Go.GoTrimField(field) == Chars(core)
  {
    assert [] + [] + core + spaces + nuls == field;
    Go.GoTrimFieldOf([], [], core, spaces, nuls);
  }

  lemma PySideOfPadded(field: seq<byte>, core: seq<byte>, spaces: seq<byte>, nuls: seq<byte>)
    requires Padded(field, core, spaces, nuls)
    ensures FieldText(field) == Chars(core) + Chars(spaces)
  {
    CStringOf(core + spaces, nuls);
    CharsConcat(core, spaces);
  }

  /** Stripping removes trailing white space from a text that has none at
      either end. */
  lemma StripPadded(core: string, spaces: string)
    requires core != [] ==> !PySpace(core[0]) && !PySpace(core[|core| - 1])
    requires forall i :: 0 <= i < |spaces| ==> GoSpace(spaces[i])
    ensures Strip(core + spaces) == core
  {
    TrimOf([], core, spaces, PySpace);
    assert [] + core + spaces == core + spaces;
  }

  /** ctypes stops at the first NUL. */
  lemma CStringOf(text: seq<byte>, nuls: seq<byte>)
    requires forall i :: 0 <= i < |text| ==> text[i] != 0
    requires Go.AllNul(nuls)
    ensures CString(text + nuls) == text
  {
    if nuls == [] {
      assert text + nuls == text;
      SpanAll(text, NotNul);
    } else {
      SpanStops(text, nuls, NotNul);
    }
  }

  /** Normalising before stripping gives what stripping before normalising
      gives, unless the serial is "vol" followed by white space only. */
  lemma NormalizeThenStrip(core: string, spaces: string)
    requires core != [] ==> !PySpace(core[0]) && !PySpace(core[|core| - 1])
    requires forall i :: 0 <= i < |spaces| ==> GoSpace(spaces[i])
    requires core != "vol"
    ensures NormalizeSerial(core + spaces) == Ok(Go.NormalizeVolumeId(core + spaces))
    ensures Strip(Go.NormalizeVolumeId(core + spaces)) == Go.NormalizeVolumeId(core)
  {
    var s := core + spaces;
    if |core| <= 3 {
      NoVolPrefix(core, spaces);
      StripPadded(core, spaces);
    } else {
      NormalizePadded(core, spaces);
      var n := Go.NormalizeVolumeId(core);
      assert n[0] == core[0] && n[|n| - 1] == core[|core| - 1];
      StripPadded(n, spaces);
    }
  }

  /** A core of at most three characters other than "vol", padded with
      white space, does not start with "vol". */
  lemma NoVolPrefix(core: string, spaces: string)
    requires |core| <= 3 && core != "vol"
    requires forall i :: 0 <= i < |spaces| ==> GoSpace(spaces[i])
    ensures !HasPrefix(core + spaces, "vol") && !HasPrefix(core, "vol")
  {
    var s := core + spaces;
    if |core| < 3 {
      if |s| >= 3 {
        assert s[|core|] == spaces[0];
      }
    } else {
      assert s[..3] == core;
    }
  }

  /** For a core longer than three characters the rule only looks at the
      core, so the padding is carried along. */
  lemma NormalizePadded(core: string, spaces: string)
    requires |core| > 3
    ensures Go.NormalizeVolumeId(core + spaces) == Go.NormalizeVolumeId(core) + spaces
  {
    var s := core + spaces;
    assert s[..3] == core[..3] && s[3] == core[3];
    if HasPrefix(core, "vol") && core[3] != '-' {
      assert s[3..] == core[3..] + spaces;
    }
  }

  /** On the serial and model fields drives actually carry (text padded
      with spaces and then NULs), the Go package and the script accept the
      same controllers and report the same volume id. */
  lemma VolumeIdsAgree(device: string, c: Id.IdentifyController,
                       sn: seq<byte>, snSpaces: seq<byte>, snNuls: seq<byte>,
                       mn: seq<byte>, mnSpaces: seq<byte>, mnNuls: seq<byte>)
    requires Padded(c.sn, sn, snSpaces, snNuls) && Chars(sn) != "vol"
    requires Padded(c.mn, mn, mnSpaces, mnNuls)
    ensures Go.VolumeIdFromIdentify(c).Ok? <==> VolumeIdFromIdentify(device, c).Ok?
    ensures Go.VolumeIdFromIdentify(c).Ok? ==>
      Go.VolumeIdFromIdentify(c).value == VolumeIdFromIdentify(device, c).value
  {
    PaddedFieldText(c.mn, mn, mnSpaces, mnNuls);
    PaddedFieldText(c.sn, sn, snSpaces, snNuls);
    var core, spaces := Chars(sn), Chars(snSpaces);
    NormalizeThenStrip(core, spaces);
  }

  /** The bytes of "vol". */
  const Vol: seq<byte> := [0x76, 0x6F, 0x6C]

  /** A serial field holding "vol", one blank, then NULs. */
  const VolBlankSerial: seq<byte> := Vol + [0x20] + Zeros(16)

  /** A serial field holding exactly "vol", then NULs. */
  const BareVolSerial: seq<byte> := Vol + Zeros(17)

  lemma VolBlankSerialText()
    ensures Go.GoTrimField(VolBlankSerial) == "vol"
    ensures FieldText(VolBlankSerial) == "vol "
  {
    VolBlankPadded();
    VolChars();
    BlankChars();
    PaddedFieldText(VolBlankSerial, Vol, [0x20], Zeros(16));
  }

  lemma VolChars()
    ensures Chars(Vol) == "vol"
  {
  }

  lemma BlankChars()
    ensures Chars([0x20]) == " " && "vol" + Chars([0x20]) == "vol "
  {
  }

  lemma VolBlankPadded()
    ensures Padded(VolBlankSerial, Vol, [0x20], Zeros(16))
  {
    assert Go.AllGoSpace([0x20]);
    assert Go.AllNul(Zeros(16));
  }

  lemma BareVolSerialText()
    ensures Go.GoTrimField(BareVolSerial) == "vol"
    ensures FieldText(BareVolSerial) == "vol"
  {
    assert Chars(Vol) == "vol";
    assert BareVolSerial == Vol + [] + Zeros(17);
    PaddedFieldText(BareVolSerial, Vol, [], Zeros(17));
    assert Chars([]) == [];
  }

  /** The Amazon model number, padded: both readers accept it. */
  lemma AmazonModel(c: Id.IdentifyController, mn: seq<byte>, mnSpaces: seq<byte>, mnNuls: seq<byte>)
    requires c.vid == Go.AmznNvmeVid
    requires Padded(c.mn, mn, mnSpaces, mnNuls) && Chars(mn) == Go.AmznNvmeEbsMn
    ensures Go.GoTrimField(c.mn) == Go.AmznNvmeEbsMn
    ensures Strip(FieldText(c.mn)) == Go.AmznNvmeEbsMn
  {
    PaddedFieldText(c.mn, mn, mnSpaces, mnNuls);
  }

  /** A serial that is "vol" and a blank: Go trims it before the rule and
      keeps "vol"; the script applies the rule first (the fourth character
      is a blank, not '-') and strips afterwards, reporting "vol-". */
  lemma VolThenBlankDiffers(device: string, c: Id.IdentifyController,
                            mn: seq<byte>, mnSpaces: seq<byte>, mnNuls: seq<byte>)
    requires c.vid == Go.AmznNvmeVid
    requires Padded(c.mn, mn, mnSpaces, mnNuls) && Chars(mn) == Go.AmznNvmeEbsMn
    requires c.sn == VolBlankSerial
    ensures Go.VolumeIdFromIdentify(c) == Ok("vol")
    ensures VolumeIdFromIdentify(device, c) == Ok("vol-")
  {
    AmazonModel(c, mn, mnSpaces, mnNuls);
    VolBlankSerialText();
    VolBlankRules();
  }

  /** The two rules on the texts of `VolBlankSerial`. */
  lemma VolBlankRules()
    ensures Go.NormalizeVolumeId("vol") == "vol"
    ensures NormalizeSerial("vol ") == Ok("vol- ")
    ensures Strip("vol- ") == "vol-"
  {
    assert HasPrefix("vol ", "vol");
    assert "vol "[3..] == " ";
    StripPadded("vol-", " ");
    assert "vol-" + " " == "vol- ";
  }

  /** A serial that is exactly "vol": Go keeps it, the script's `vol[3]`
      raises `IndexError`. */
  lemma BareVolDiffers(device: string, c: Id.IdentifyController,
                       mn: seq<byte>, mnSpaces: seq<byte>, mnNuls: seq<byte>)
    requires c.vid == Go.AmznNvmeVid
    requires Padded(c.mn, mn, mnSpaces, mnNuls) && Chars(mn) == Go.AmznNvmeEbsMn
    requires c.sn == BareVolSerial
    ensures Go.VolumeIdFromIdentify(c) == Ok("vol")
    ensures VolumeIdFromIdentify(device, c) == Err(IndexError)
  {
    AmazonModel(c, mn, mnSpaces, mnNuls);
    BareVolSerialText();
  }

  /** A model number preceded by a NUL byte: Go trims NULs from both ends
      and accepts the drive; ctypes stops at the first NUL, so the script
      sees an empty model and raises `TypeError`. */
  lemma LeadingNulModelDiffers(device: string, c: Id.IdentifyController,
                               mn: seq<byte>, mnSpaces: seq<byte>, mnNuls: seq<byte>)
    requires c.vid == Go.AmznNvmeVid
    requires c.mn == [0] + mn + mnSpaces + mnNuls
    requires Padded(mn + mnSpaces + mnNuls, mn, mnSpaces, mnNuls) && Chars(mn) == Go.AmznNvmeEbsMn
    ensures Go.VolumeIdFromIdentify(c).Ok?
    ensures VolumeIdFromIdentify(device, c) == Err(TypeError(device))
  {
    LeadingNulGoSide(c.mn, mn, mnSpaces, mnNuls);
    LeadingNulPySide(c.mn);
  }

  lemma LeadingNulGoSide(field: seq<byte>, mn: seq<byte>, mnSpaces: seq<byte>, mnNuls: seq<byte>)
    requires field == [0] + mn + mnSpaces + mnNuls
    requires Padded(mn + mnSpaces + mnNuls, mn, mnSpaces, mnNuls)
    ensures Go.GoTrimField(field) == Chars(mn)
  {
    assert field == [0] + [] + mn + mnSpaces + mnNuls;
    Go.GoTrimFieldOf([0], [], mn, mnSpaces, mnNuls);
  }

  lemma LeadingNulPySide(field: seq<byte>)
    requires field != [] && field[0] == 0
    ensures FieldText(field) == []
  {
  }
}
