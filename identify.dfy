/** The 4096-byte Identify Controller data structure (CNS 01h of the Identify
    command, section 5.15 of the NVM Express Base Specification 1.3) as the
    Go struct `nvmeIdentifyController` declares it, and the ctypes
    Structure `nvme_identify_controller`, which has the same fields at the
    same offsets and splits the vendor-specific area further. */
module IdentifyController {
  import opened Bytes
  import opened Layout

  const IdentifySize: nat := 4096

  datatype IdentifyController = IdentifyController(
    vid: u16, ssvid: u16, sn: seq<byte>, mn: seq<byte>, fr: seq<byte>,
    rab: byte, ieee: seq<byte>, mic: byte, mdts: byte, reserved0: seq<byte>,
    oacs: u16, acl: byte, aerl: byte, frmw: byte, lpa: byte,
    elpe: byte, npss: byte, avscc: byte, reserved1: seq<byte>, sqes: byte,
    cqes: byte, reserved2: u16, nn: u32, oncs: u16, fuses: u16,
    fna: byte, vwc: byte, awun: u16, awupf: u16, nvscc: byte,
    reserved3: seq<byte>, reserved4: seq<byte>, psd: seq<byte>, vs: seq<byte>)

  const VidField := Field("VID", 0, 2)
  const SsvidField := Field("SSVID", 2, 2)
  const SnField := Field("SN", 4, 20)
  const MnField := Field("MN", 24, 40)
  const FrField := Field("FR", 64, 8)
  const RabField := Field("RAB", 72, 1)
  const IeeeField := Field("IEEE", 73, 3)
  const MicField := Field("MIC", 76, 1)
  const MdtsField := Field("MDTS", 77, 1)
  const Reserved0Field := Field("Reserved0", 78, 178)
  const OacsField := Field("OACS", 256, 2)
  const AclField := Field("ACL", 258, 1)
  const AerlField := Field("AERL", 259, 1)
  const FrmwField := Field("FRMW", 260, 1)
  const LpaField := Field("LPA", 261, 1)
  const ElpeField := Field("ELPE", 262, 1)
  const NpssField := Field("NPSS", 263, 1)
  const AvsccField := Field("AVSCC", 264, 1)
  const Reserved1Field := Field("Reserved1", 265, 247)
  const SqesField := Field("SQES", 512, 1)
  const CqesField := Field("CQES", 513, 1)
  const Reserved2Field := Field("Reserved2", 514, 2)
  const NnField := Field("NN", 516, 4)
  const OncsField := Field("ONCS", 520, 2)
  const FusesField := Field("FUSES", 522, 2)
  const FnaField := Field("FNA", 524, 1)
  const VwcField := Field("VWC", 525, 1)
  const AwunField := Field("AWUN", 526, 2)
  const AwupfField := Field("AWUPF", 528, 2)
  const NvsccField := Field("NVSCC", 530, 1)
  const Reserved3Field := Field("Reserved3", 531, 173)
  const Reserved4Field := Field("Reserved4", 704, 1344)
  const PsdField := Field("PSD", 2048, 1024)
  const VsField := Field("VS", 3072, 1024)

  const IdentifyLayout: seq<Field> := [
    VidField, SsvidField, SnField, MnField, FrField, RabField,
    IeeeField, MicField, MdtsField, Reserved0Field, OacsField, AclField,
    AerlField, FrmwField, LpaField, ElpeField, NpssField, AvsccField,
    Reserved1Field, SqesField, CqesField, Reserved2Field, NnField, OncsField,
    FusesField, FnaField, VwcField, AwunField, AwupfField, NvsccField,
    Reserved3Field, Reserved4Field, PsdField, VsField]

  /** Every array field has its declared length. */
  predicate WellFormed(c: IdentifyController)
  {
    && |c.sn| == SnField.width
    && |c.mn| == MnField.width
    && |c.fr| == FrField.width
    && |c.ieee| == IeeeField.width
    && |c.reserved0| == Reserved0Field.width
    && |c.reserved1| == Reserved1Field.width
    && |c.reserved3| == Reserved3Field.width
    && |c.reserved4| == Reserved4Field.width
    && |c.psd| == PsdField.width
    && |c.vs| == VsField.width
  }

  function Encode(c: IdentifyController): (b: seq<byte>)
    requires WellFormed(c)
    ensures |b| == IdentifySize
  {
    Le16(c.vid) + Le16(c.ssvid) + c.sn + c.mn + c.fr + [c.rab] + c.ieee + [c.mic] + [c.mdts]
    + c.reserved0 + Le16(c.oacs) + [c.acl] + [c.aerl] + [c.frmw] + [c.lpa] + [c.elpe] + [c.npss]
    + [c.avscc] + c.reserved1 + [c.sqes] + [c.cqes] + Le16(c.reserved2) + Le32(c.nn) + Le16(c.oncs)
    + Le16(c.fuses) + [c.fna] + [c.vwc] + Le16(c.awun) + Le16(c.awupf) + [c.nvscc] + c.reserved3
    + c.reserved4 + c.psd + c.vs
  }

  function Decode(b: seq<byte>): (c: IdentifyController)
    requires |b| == IdentifySize
    ensures WellFormed(c)
  {
    IdentifyController(
      U16At(b, VidField.offset),
      U16At(b, SsvidField.offset),
      FieldBytes(b, SnField),
      FieldBytes(b, MnField),
      FieldBytes(b, FrField),
      b[RabField.offset],
      FieldBytes(b, IeeeField),
      b[MicField.offset],
      b[MdtsField.offset],
      FieldBytes(b, Reserved0Field),
      U16At(b, OacsField.offset),
      b[AclField.offset],
      b[AerlField.offset],
      b[FrmwField.offset],
      b[LpaField.offset],
      b[ElpeField.offset],
      b[NpssField.offset],
      b[AvsccField.offset],
      FieldBytes(b, Reserved1Field),
      b[SqesField.offset],
      b[CqesField.offset],
      U16At(b, Reserved2Field.offset),
      U32At(b, NnField.offset),
      U16At(b, OncsField.offset),
      U16At(b, FusesField.offset),
      b[FnaField.offset],
      b[VwcField.offset],
      U16At(b, AwunField.offset),
      U16At(b, AwupfField.offset),
      b[NvsccField.offset],
      FieldBytes(b, Reserved3Field),
      FieldBytes(b, Reserved4Field),
      FieldBytes(b, PsdField),
      FieldBytes(b, VsField))
  }

  lemma DecodeEncodeIdentify(c: IdentifyController)
    requires WellFormed(c)
    ensures Decode(Encode(c)) == c
  {
    var b := Encode(c);
    var q0 := Le16(c.vid);
    var q1 := q0 + Le16(c.ssvid);
    var q2 := q1 + c.sn;
    var q3 := q2 + c.mn;
    var q4 := q3 + c.fr;
    var q5 := q4 + [c.rab];
    var q6 := q5 + c.ieee;
    var q7 := q6 + [c.mic];
    var q8 := q7 + [c.mdts];
    var q9 := q8 + c.reserved0;
    var q10 := q9 + Le16(c.oacs);
    var q11 := q10 + [c.acl];
    var q12 := q11 + [c.aerl];
    var q13 := q12 + [c.frmw];
    var q14 := q13 + [c.lpa];
    var q15 := q14 + [c.elpe];
    var q16 := q15 + [c.npss];
    var q17 := q16 + [c.avscc];
    var q18 := q17 + c.reserved1;
    var q19 := q18 + [c.sqes];
    var q20 := q19 + [c.cqes];
    var q21 := q20 + Le16(c.reserved2);
    var q22 := q21 + Le32(c.nn);
    var q23 := q22 + Le16(c.oncs);
    var q24 := q23 + Le16(c.fuses);
    var q25 := q24 + [c.fna];
    var q26 := q25 + [c.vwc];
    var q27 := q26 + Le16(c.awun);
    var q28 := q27 + Le16(c.awupf);
    var q29 := q28 + [c.nvscc];
    var q30 := q29 + c.reserved3;
    var q31 := q30 + c.reserved4;
    var q32 := q31 + c.psd;
    var q33 := q32 + c.vs;
    assert b[..|q33|] == q33;
    PrefixField(b, q32, c.vs);
    PrefixField(b, q31, c.psd);
    PrefixField(b, q30, c.reserved4);
    PrefixField(b, q29, c.reserved3);
    PrefixField(b, q28, [c.nvscc]);
    PrefixField(b, q27, Le16(c.awupf));
    PrefixField(b, q26, Le16(c.awun));
    PrefixField(b, q25, [c.vwc]);
    PrefixField(b, q24, [c.fna]);
    PrefixField(b, q23, Le16(c.fuses));
    PrefixField(b, q22, Le16(c.oncs));
    PrefixField(b, q21, Le32(c.nn));
    PrefixField(b, q20, Le16(c.reserved2));
    PrefixField(b, q19, [c.cqes]);
    PrefixField(b, q18, [c.sqes]);
    PrefixField(b, q17, c.reserved1);
    PrefixField(b, q16, [c.avscc]);
    PrefixField(b, q15, [c.npss]);
    PrefixField(b, q14, [c.elpe]);
    PrefixField(b, q13, [c.lpa]);
    PrefixField(b, q12, [c.frmw]);
    PrefixField(b, q11, [c.aerl]);
    PrefixField(b, q10, [c.acl]);
    PrefixField(b, q9, Le16(c.oacs));
    PrefixField(b, q8, c.reserved0);
    PrefixField(b, q7, [c.mdts]);
    PrefixField(b, q6, [c.mic]);
    PrefixField(b, q5, c.ieee);
    PrefixField(b, q4, [c.rab]);
    PrefixField(b, q3, c.fr);
    PrefixField(b, q2, c.mn);
    PrefixField(b, q1, c.sn);
    PrefixField(b, q0, Le16(c.ssvid));
    ReadU16(b, 0, c.vid);
    ReadU16(b, 2, c.ssvid);
    ReadU16(b, 256, c.oacs);
    ReadU16(b, 514, c.reserved2);
    ReadU32(b, 516, c.nn);
    ReadU16(b, 520, c.oncs);
    ReadU16(b, 522, c.fuses);
    ReadU16(b, 526, c.awun);
    ReadU16(b, 528, c.awupf);
  }

  /** Every 4096-byte image is the image of the structure decoded from it:
      the fields are re-encoded one after the other, each giving back the
      slice it was read from. */
  lemma EncodeDecodeIdentify(b: seq<byte>)
    requires |b| == IdentifySize
    ensures Encode(Decode(b)) == b
  {
    var c := Decode(b);
    ReencodeFront(b);
    ReencodeBack(b, b[..512]);
  }

  /** The fields up to the end of Reserved1 re-encode to the first 512 bytes. */
  lemma ReencodeFront(b: seq<byte>)
    requires |b| == IdentifySize
    ensures var c := Decode(b);
      Le16(c.vid) + Le16(c.ssvid) + c.sn + c.mn + c.fr + [c.rab] + c.ieee + [c.mic] + [c.mdts]
      + c.reserved0 + Le16(c.oacs) + [c.acl] + [c.aerl] + [c.frmw] + [c.lpa] + [c.elpe]
      + [c.npss] + [c.avscc] + c.reserved1
      == b[..512]
  {
    var c := Decode(b);
    WriteU16(b, 0);
    var x := Le16(c.vid);
    assert x == b[0..2];
    WriteU16(b, 2);
    x := x + Le16(c.ssvid);
    AdjacentSlices(b, 0, 2, 4);
    assert x == b[0..4];
    x := x + c.sn;
    AdjacentSlices(b, 0, 4, 24);
    assert x == b[0..24];
    x := x + c.mn;
    AdjacentSlices(b, 0, 24, 64);
    assert x == b[0..64];
    x := x + c.fr;
    AdjacentSlices(b, 0, 64, 72);
    assert x == b[0..72];
    assert [c.rab] == b[72..73];
    x := x + [c.rab];
    AdjacentSlices(b, 0, 72, 73);
    assert x == b[0..73];
    x := x + c.ieee;
    AdjacentSlices(b, 0, 73, 76);
    assert x == b[0..76];
    assert [c.mic] == b[76..77];
    x := x + [c.mic];
    AdjacentSlices(b, 0, 76, 77);
    assert x == b[0..77];
    assert [c.mdts] == b[77..78];
    x := x + [c.mdts];
    AdjacentSlices(b, 0, 77, 78);
    assert x == b[0..78];
    x := x + c.reserved0;
    AdjacentSlices(b, 0, 78, 256);
    assert x == b[0..256];
    WriteU16(b, 256);
    x := x + Le16(c.oacs);
    AdjacentSlices(b, 0, 256, 258);
    assert x == b[0..258];
    assert [c.acl] == b[258..259];
    x := x + [c.acl];
    AdjacentSlices(b, 0, 258, 259);
    assert x == b[0..259];
    assert [c.aerl] == b[259..260];
    x := x + [c.aerl];
    AdjacentSlices(b, 0, 259, 260);
    assert x == b[0..260];
    assert [c.frmw] == b[260..261];
    x := x + [c.frmw];
    AdjacentSlices(b, 0, 260, 261);
    assert x == b[0..261];
    assert [c.lpa] == b[261..262];
    x := x + [c.lpa];
    AdjacentSlices(b, 0, 261, 262);
    assert x == b[0..262];
    assert [c.elpe] == b[262..263];
    x := x + [c.elpe];
    AdjacentSlices(b, 0, 262, 263);
    assert x == b[0..263];
    assert [c.npss] == b[263..264];
    x := x + [c.npss];
    AdjacentSlices(b, 0, 263, 264);
    assert x == b[0..264];
    assert [c.avscc] == b[264..265];
    x := x + [c.avscc];
    AdjacentSlices(b, 0, 264, 265);
    assert x == b[0..265];
    x := x + c.reserved1;
    AdjacentSlices(b, 0, 265, 512);
    assert x == b[0..512];
  }

  /** The remaining fields, appended to the first 512 bytes, complete the image. */
  lemma ReencodeBack(b: seq<byte>, x: seq<byte>)
    requires |b| == IdentifySize && x == b[..512]
    ensures var c := Decode(b);
      x + [c.sqes] + [c.cqes] + Le16(c.reserved2) + Le32(c.nn) + Le16(c.oncs) + Le16(c.fuses)
      + [c.fna] + [c.vwc] + Le16(c.awun) + Le16(c.awupf) + [c.nvscc] + c.reserved3
      + c.reserved4 + c.psd + c.vs
      == b
  {
    var c := Decode(b);
    var x := x;
    assert [c.sqes] == b[512..513];
    x := x + [c.sqes];
    AdjacentSlices(b, 0, 512, 513);
    assert x == b[0..513];
    assert [c.cqes] == b[513..514];
    x := x + [c.cqes];
    AdjacentSlices(b, 0, 513, 514);
    assert x == b[0..514];
    WriteU16(b, 514);
    x := x + Le16(c.reserved2);
    AdjacentSlices(b, 0, 514, 516);
    assert x == b[0..516];
    WriteU32(b, 516);
    x := x + Le32(c.nn);
    AdjacentSlices(b, 0, 516, 520);
    assert x == b[0..520];
    WriteU16(b, 520);
    x := x + Le16(c.oncs);
    AdjacentSlices(b, 0, 520, 522);
    assert x == b[0..522];
    WriteU16(b, 522);
    x := x + Le16(c.fuses);
    AdjacentSlices(b, 0, 522, 524);
    assert x == b[0..524];
    assert [c.fna] == b[524..525];
    x := x + [c.fna];
    AdjacentSlices(b, 0, 524, 525);
    assert x == b[0..525];
    assert [c.vwc] == b[525..526];
    x := x + [c.vwc];
    AdjacentSlices(b, 0, 525, 526);
    assert x == b[0..526];
    WriteU16(b, 526);
    x := x + Le16(c.awun);
    AdjacentSlices(b, 0, 526, 528);
    assert x == b[0..528];
    WriteU16(b, 528);
    x := x + Le16(c.awupf);
    AdjacentSlices(b, 0, 528, 530);
    assert x == b[0..530];
    assert [c.nvscc] == b[530..531];
    x := x + [c.nvscc];
    AdjacentSlices(b, 0, 530, 531);
    assert x == b[0..531];
    x := x + c.reserved3;
    AdjacentSlices(b, 0, 531, 704);
    assert x == b[0..704];
    x := x + c.reserved4;
    AdjacentSlices(b, 0, 704, 2048);
    assert x == b[0..2048];
    x := x + c.psd;
    AdjacentSlices(b, 0, 2048, 3072);
    assert x == b[0..3072];
    x := x + c.vs;
    AdjacentSlices(b, 0, 3072, 4096);
    assert x == b[0..4096];
  }

  /** The table tiles 4096 bytes; VID at 0, SN at 4..23, MN at 24..63, PSD at
      2048 and the vendor-specific area at 3072..4095. */
  lemma IdentifyLayoutContiguous()
    ensures Contiguous(IdentifyLayout, IdentifySize)
    ensures VidField.offset == 0 && VidField.width == 2
    ensures SnField.offset == 4 && SnField.End() == 24
    ensures MnField.offset == 24 && MnField.End() == 64
    ensures PsdField.offset == 2048 && VsField.offset == 3072 && VsField.End() == 4096
  {
  }

  /** The ctypes `nvme_identify_controller_amzn_vs` sub-structure that fills
      the vendor-specific area: a 32-byte block device name, then reserved. */
  const BdevField := Field("bdev", 0, 32)
  const VsReservedField := Field("_reserved0", 32, 1024 - 32)
  const AmazonVsLayout: seq<Field> := [BdevField, VsReservedField]

  lemma AmazonVsLayoutFillsVs()
    ensures Contiguous(AmazonVsLayout, VsField.width)
  {
  }
}
