/** The NVMe admin command record handed to the Linux NVME_IOCTL_ADMIN_CMD
    ioctl: the Go struct `nvmeAdminCommand` and the packed ctypes Structure
    `nvme_admin_command` have the same sixteen fields in the same order. */
module AdminCommand {
  import opened Bytes
  import opened Layout

  const NvmeAdminIdentify: byte := 0x06
  const NvmeGetLogPage: byte := 0x02
  /** `_IOWR('N', 0x41, struct nvme_admin_cmd)` */
  const NvmeIoctlAdminCmd: nat := 0xC0484E41

  datatype Command = Command(
    opcode: byte, flags: byte, cid: u16, nsid: u32,
    reserved0: u64, mptr: u64, addr: u64,
    mlen: u32, alen: u32,
    cdw10: u32, cdw11: u32, cdw12: u32, cdw13: u32, cdw14: u32, cdw15: u32,
    reserved1: u64)

  /** A command with every field zero, as a Go composite literal or a ctypes
      constructor leaves the fields it does not name. */
  const ZeroCommand := Command(0, 0, 0, 0, 0, 0, 0, 0, 0, 0, 0, 0, 0, 0, 0, 0)

  const OpcodeField := Field("Opcode", 0, 1)
  const FlagsField := Field("Flags", 1, 1)
  const CidField := Field("CID", 2, 2)
  const NsidField := Field("NSID", 4, 4)
  const Reserved0Field := Field("Reserved0", 8, 8)
  const MptrField := Field("MPTR", 16, 8)
  const AddrField := Field("Addr", 24, 8)
  const MlenField := Field("MLen", 32, 4)
  const AlenField := Field("ALen", 36, 4)
  const Cdw10Field := Field("CDW10", 40, 4)
  const Cdw11Field := Field("CDW11", 44, 4)
  const Cdw12Field := Field("CDW12", 48, 4)
  const Cdw13Field := Field("CDW13", 52, 4)
  const Cdw14Field := Field("CDW14", 56, 4)
  const Cdw15Field := Field("CDW15", 60, 4)
  const Reserved1Field := Field("Reserved1", 64, 8)

  const CommandLayout: seq<Field> := [
    OpcodeField, FlagsField, CidField, NsidField, Reserved0Field, MptrField, AddrField,
    MlenField, AlenField, Cdw10Field, Cdw11Field, Cdw12Field, Cdw13Field, Cdw14Field,
    Cdw15Field, Reserved1Field]

  const CommandSize: nat := 72

  /** The sixteen fields tile exactly 72 bytes; CDW10 sits at offset 40. */
  lemma CommandLayoutContiguous()
    ensures Contiguous(CommandLayout, CommandSize)
    ensures Cdw10Field.offset == 40 && Cdw10Field in CommandLayout
  {
  }

  /** The in-memory image of the command (little-endian, no padding). */
  function Encode(c: Command): (b: seq<byte>)
    ensures |b| == CommandSize
  {
    [c.opcode] + [c.flags] + Le16(c.cid) + Le32(c.nsid)
    + Le64(c.reserved0) + Le64(c.mptr) + Le64(c.addr)
    + Le32(c.mlen) + Le32(c.alen)
    + Le32(c.cdw10) + Le32(c.cdw11) + Le32(c.cdw12) + Le32(c.cdw13) + Le32(c.cdw14) + Le32(c.cdw15)
    + Le64(c.reserved1)
  }

  /** Reading the command back from its image, field by field at the offsets
      of CommandLayout. */
  function Decode(b: seq<byte>): (c: Command)
    requires |b| == CommandSize
  {
    Command(
      b[OpcodeField.offset], b[FlagsField.offset], U16At(b, CidField.offset), U32At(b, NsidField.offset),
      U64At(b, Reserved0Field.offset), U64At(b, MptrField.offset), U64At(b, AddrField.offset),
      U32At(b, MlenField.offset), U32At(b, AlenField.offset),
      U32At(b, Cdw10Field.offset), U32At(b, Cdw11Field.offset), U32At(b, Cdw12Field.offset),
      U32At(b, Cdw13Field.offset), U32At(b, Cdw14Field.offset), U32At(b, Cdw15Field.offset),
      U64At(b, Reserved1Field.offset))
  }

  /** Every field is found again at its table offset: nothing is reordered
      and no offset drifts. */
  lemma DecodeEncodeCommand(c: Command)
    ensures Decode(Encode(c)) == c
  {
    var b := Encode(c);
    var p1 := [c.opcode] + [c.flags];
    var p2 := p1 + Le16(c.cid);
    var p3 := p2 + Le32(c.nsid);
    var p4 := p3 + Le64(c.reserved0);
    var p5 := p4 + Le64(c.mptr);
    var p6 := p5 + Le64(c.addr);
    var p7 := p6 + Le32(c.mlen);
    var p8 := p7 + Le32(c.alen);
    var p9 := p8 + Le32(c.cdw10);
    var p10 := p9 + Le32(c.cdw11);
    var p11 := p10 + Le32(c.cdw12);
    var p12 := p11 + Le32(c.cdw13);
    var p13 := p12 + Le32(c.cdw14);
    var p14 := p13 + Le32(c.cdw15);
    var p15 := p14 + Le64(c.reserved1);
    assert p15 == b;
    PrefixField(b, p14, Le64(c.reserved1));
    ReadU64(b, 64, c.reserved1);
    PrefixField(b, p13, Le32(c.cdw15));
    ReadU32(b, 60, c.cdw15);
    PrefixField(b, p12, Le32(c.cdw14));
    ReadU32(b, 56, c.cdw14);
    PrefixField(b, p11, Le32(c.cdw13));
    ReadU32(b, 52, c.cdw13);
    PrefixField(b, p10, Le32(c.cdw12));
    ReadU32(b, 48, c.cdw12);
    PrefixField(b, p9, Le32(c.cdw11));
    ReadU32(b, 44, c.cdw11);
    PrefixField(b, p8, Le32(c.cdw10));
    ReadU32(b, 40, c.cdw10);
    PrefixField(b, p7, Le32(c.alen));
    ReadU32(b, 36, c.alen);
    PrefixField(b, p6, Le32(c.mlen));
    ReadU32(b, 32, c.mlen);
    PrefixField(b, p5, Le64(c.addr));
    ReadU64(b, 24, c.addr);
    PrefixField(b, p4, Le64(c.mptr));
    ReadU64(b, 16, c.mptr);
    PrefixField(b, p3, Le64(c.reserved0));
    ReadU64(b, 8, c.reserved0);
    PrefixField(b, p2, Le32(c.nsid));
    ReadU32(b, 4, c.nsid);
    PrefixField(b, p1, Le16(c.cid));
    ReadU16(b, 2, c.cid);
    assert b[0] == p1[0] && b[1] == p1[1];
  }

  /** Every 72-byte image is the image of exactly the command decoded from it. */
  lemma EncodeDecodeCommand(b: seq<byte>)
    requires |b| == CommandSize
    ensures Encode(Decode(b)) == b
  {
    WriteU16(b, 2);
    WriteU32(b, 4);
    WriteU64(b, 8);
    WriteU64(b, 16);
    WriteU64(b, 24);
    WriteU32(b, 32);
    WriteU32(b, 36);
    WriteU32(b, 40);
    WriteU32(b, 44);
    WriteU32(b, 48);
    WriteU32(b, 52);
    WriteU32(b, 56);
    WriteU32(b, 60);
    WriteU64(b, 64);
    assert [b[0]] == b[0..1] && [b[1]] == b[1..2];
    assert Encode(Decode(b)) == b[0..1] + b[1..2] + b[2..4] + b[4..8] + b[8..16] + b[16..24]
      + b[24..32] + b[32..36] + b[36..40] + b[40..44] + b[44..48] + b[48..52] + b[52..56]
      + b[56..60] + b[60..64] + b[64..72];
    AdjacentSlices(b, 0, 1, 2);
    AdjacentSlices(b, 0, 2, 4);
    AdjacentSlices(b, 0, 4, 8);
    AdjacentSlices(b, 0, 8, 16);
    AdjacentSlices(b, 0, 16, 24);
    AdjacentSlices(b, 0, 24, 32);
    AdjacentSlices(b, 0, 32, 36);
    AdjacentSlices(b, 0, 36, 40);
    AdjacentSlices(b, 0, 40, 44);
    AdjacentSlices(b, 0, 44, 48);
    AdjacentSlices(b, 0, 48, 52);
    AdjacentSlices(b, 0, 52, 56);
    AdjacentSlices(b, 0, 56, 60);
    AdjacentSlices(b, 0, 60, 64);
    AdjacentSlices(b, 0, 64, 72);
  }

  /** Linux `_IOC(dir, type, nr, size)`: nr in bits 0-7, type in bits 8-15,
      size in bits 16-29, direction in bits 30-31. */
  const IocWrite: nat := 1
  const IocRead: nat := 2

  function Ioc(dir: nat, kind: nat, nr: nat, size: nat): (request: nat)
    requires dir < 4 && kind < 0x100 && nr < 0x100 && size < 0x4000
    ensures request < 0x1_0000_0000
  {
    dir * 0x4000_0000 + size * 0x1_0000 + kind * 0x100 + nr
  }

  function IocSize(request: nat): (size: nat)
    ensures size < 0x4000
  {
    (request / 0x1_0000) % 0x4000
  }

  /** The request code is `_IOWR('N', 0x41, …)` over a 72-byte argument, so
      the kernel copies exactly one encoded Command in and out. */
  lemma AdminRequestCarriesCommandSize(c: Command)
    ensures NvmeIoctlAdminCmd == Ioc(IocRead + IocWrite, 'N' as nat, 0x41, CommandSize)
    ensures IocSize(NvmeIoctlAdminCmd) == |Encode(c)|
  {
  }
}
