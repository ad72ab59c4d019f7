/** The device side of the decoder: opening a device node and the Linux
    NVME_IOCTL_ADMIN_CMD ioctl. The controller behind a node is abstract: for
    each admin command it either fails with an errno or returns a data block
    that the kernel copies into the caller's buffer. */
module Ioctl {
  import opened Bytes
  import opened Wrappers
  import AdminCommand

  /** A positive error number, as `syscall.Errno` and `OSError.errno` carry. */
  type Errno = e: int | e > 0 witness 1

  const ENOENT: Errno := 2

  datatype Reply = Failed(errno: Errno) | Filled(data: seq<byte>)

  /** The caller's buffer after the controller answered: a failed command
      leaves it alone, a successful one overwrites its prefix with the data
      returned (at most the buffer's length of it). */
  function AfterReply(buf: seq<byte>, r: Reply): (out: seq<byte>)
    ensures |out| == |buf|
  {
    match r
    case Failed(_) => buf
    case Filled(data) =>
      seq(|buf|, i requires 0 <= i < |buf| => if i < |data| then data[i] else buf[i])
  }

  class Controller {
    /** 0 when the device node opens, otherwise the errno of open(2). */
    const openErrno: nat
    /** How the controller answers each admin command. */
    const answer: AdminCommand.Command -> Reply

    constructor (openErrno: nat, answer: AdminCommand.Command -> Reply)
      ensures this.openErrno == openErrno && this.answer == answer
    {
      this.openErrno := openErrno;
      this.answer := answer;
    }

    /** Submit one admin command whose data buffer is `buf` (ALen bytes):
        the ioctl's return is 0 or the errno, and the kernel fills `buf`. */
    method Submit(cmd: AdminCommand.Command, buf: array<byte>) returns (errno: nat)
      requires buf.Length == cmd.alen
      modifies buf
      ensures answer(cmd).Failed? ==> errno == answer(cmd).errno
      ensures answer(cmd).Filled? ==> errno == 0
      ensures buf[..] == AfterReply(old(buf[..]), answer(cmd))
    {
      var r := answer(cmd);
      if r.Failed? {
        errno := r.errno;
        return;
      }
      var i := 0;
      while i < buf.Length && i < |r.data|
        invariant 0 <= i <= buf.Length && i <= |r.data|
        invariant forall k :: 0 <= k < i ==> buf[k] == r.data[k]
        invariant forall k :: i <= k < buf.Length ==> buf[k] == old(buf[k])
      {
        buf[i] := r.data[i];
        i := i + 1;
      }
      errno := 0;
      assert forall k :: 0 <= k < buf.Length ==>
        buf[..][k] == AfterReply(old(buf[..]), r)[k];
    }
  }

  /** The device nodes of the machine, by path. */
  type Host = map<string, Controller>

  /** `os.Open(path)` in Go, `open(path, "r")` in Python. */
  function Open(host: Host, path: string): (r: Result<Controller, Errno>)
    ensures path !in host ==> r == Err(ENOENT)
    ensures r.Ok? <==> path in host && host[path].openErrno == 0
    ensures r.Ok? ==> r.value == host[path]
  {
    if path !in host then Err(ENOENT)
    else if host[path].openErrno != 0 then Err(host[path].openErrno)
    else Ok(host[path])
  }

  /** What a command's zero-initialised buffer holds after the ioctl. */
  function Answered(c: Controller, cmd: AdminCommand.Command): (page: seq<byte>)
    ensures |page| == cmd.alen
    ensures c.answer(cmd).Failed? ==> page == Zeros(cmd.alen)
    ensures c.answer(cmd).Filled? ==> forall i :: 0 <= i < |page| ==>
      page[i] == (if i < |c.answer(cmd).data| then c.answer(cmd).data[i] else 0)
  {
    AfterReply(Zeros(cmd.alen), c.answer(cmd))
  }
}
