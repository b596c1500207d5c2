/**
 * The raw HID driver the KomaHub client calls into (teensyhidlib's
 * rawhid_open, rawhid_send, rawhid_recv and rawhid_close). The native
 * library is not part of this model; it stands here as a scripted driver:
 * every open, send and receive consumes the next scripted reply (a return
 * code, the bytes a receive delivers, and the Win32 error code reported
 * afterwards, which the imports do not tie to the call itself), and every
 * call is appended to a log, so the session layer
 * can be specified by the calls it makes and by how it reacts to each reply.
 */
module RawHid {

  import opened Bytes

  /** One call into the driver, with the arguments the client passes. */
  datatype Call =
    | HidOpen(max: int, vid: int, pid: int, usagePage: int, usage: int)
    | HidSend(num: int, report: seq<Byte>, len: int, timeout: int)
    | HidRecv(num: int, len: int, timeout: int)
    | HidClose(num: int)

  /**
   * What the driver answers to one open, send or receive: its return code,
   * the bytes a receive delivers, and the error GetLastWin32Error reports
   * afterwards.
   */
  datatype Reply = Reply(code: int, data: seq<Byte>, error: int)

  /** A script that has run out answers with code 0: no device for an open, a timeout for a send or receive. */
  function Next(script: seq<Reply>): Reply
  {
    if script == [] then Reply(0, [], 0) else script[0]
  }

  function Rest(script: seq<Reply>): seq<Reply>
  {
    if script == [] then [] else script[1..]
  }

  /**
   * The receive buffer after a receive answered with r: when r reports bytes
   * read, they land at the front of the buffer; otherwise the buffer is left
   * as it was.
   */
  function Filled(buffer: seq<Byte>, r: Reply): (b: seq<Byte>)
    ensures |b| == |buffer|
    ensures r.code <= 0 ==> b == buffer
    ensures r.code > 0 && |r.data| >= |buffer| ==> b == r.data[..|buffer|]
  {
    seq(|buffer|, i requires 0 <= i < |buffer| => if r.code > 0 && i < |r.data| then r.data[i] else buffer[i])
  }

  class Driver {
    var log: seq<Call>
    var script: seq<Reply>
    var lastError: int

    constructor (script: seq<Reply>)
      ensures log == [] && this.script == script && lastError == 0
    {
      log := [];
      this.script := script;
      lastError := 0;
    }

    /** rawhid_open: the number of devices opened, 0 when none was found. */
    method Open(max: int, vid: int, pid: int, usagePage: int, usage: int) returns (count: int)
      modifies this
      ensures log == old(log) + [HidOpen(max, vid, pid, usagePage, usage)]
      ensures count == Next(old(script)).code && lastError == Next(old(script)).error
      ensures script == Rest(old(script))
    {
      var reply := Next(script);
      log := log + [HidOpen(max, vid, pid, usagePage, usage)];
      script := Rest(script);
      lastError := reply.error;
      count := reply.code;
    }

    /** rawhid_send: bytes sent, 0 on timeout, -1 on error. */
    method Send(num: int, report: seq<Byte>, len: int, timeout: int) returns (code: int)
      modifies this
      ensures log == old(log) + [HidSend(num, report, len, timeout)]
      ensures code == Next(old(script)).code && lastError == Next(old(script)).error
      ensures script == Rest(old(script))
    {
      var reply := Next(script);
      log := log + [HidSend(num, report, len, timeout)];
      script := Rest(script);
      lastError := reply.error;
      code := reply.code;
    }

    /** rawhid_recv: bytes read into buf, 0 on timeout, -1 on error. */
    method Recv(num: int, buf: array<Byte>, len: int, timeout: int) returns (code: int)
      modifies this, buf
      ensures log == old(log) + [HidRecv(num, len, timeout)]
      ensures code == Next(old(script)).code && lastError == Next(old(script)).error
      ensures script == Rest(old(script))
      ensures buf[..] == Filled(old(buf[..]), Next(old(script)))
    {
      var reply := Next(script);
      log := log + [HidRecv(num, len, timeout)];
      script := Rest(script);
      lastError := reply.error;
      code := reply.code;
      if code > 0 {
        var n := if |reply.data| < buf.Length then |reply.data| else buf.Length;
        for i := 0 to n
          modifies buf
          invariant forall k :: 0 <= k < i ==> buf[k] == reply.data[k]
          invariant forall k :: i <= k < buf.Length ==> buf[k] == old(buf[k])
        {
          buf[i] := reply.data[i];
        }
      }
    }

    /** rawhid_close */
    method Close(num: int)
      modifies this
      ensures log == old(log) + [HidClose(num)]
      ensures script == old(script) && lastError == old(lastError)
    {
      log := log + [HidClose(num)];
    }
  }
}
