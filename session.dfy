/**
 * The KomaHub client session (class KomaHubHID in
 * software/KomaHub/KomaHub/KomaHubHID.cs): opening and closing the device,
 * the private send and recv helpers that map the driver's return codes, and
 * the public operations, each built from one request report and one send,
 * followed by one receive and a decoder for the queries.
 *
 * The session's observable state is a Link value: the Connected flag, how
 * many "Communications Timeout" message boxes have been shown, and the
 * driver's call log, remaining script and last error. Each operation is
 * specified by a function from the old Link to the new Link and the
 * operation's result; the class's methods are proved to follow those
 * functions, and the lemmas below are about the functions.
 */
module Session {

  import opened Bytes
  import opened UsbCommands
  import opened Domain
  import opened Requests
  import opened Responses
  import opened RawHid

  /** Timeouts and device index the client passes to every send and receive. */
  const SendTimeout := 100
  const RecvTimeout := 500
  const DeviceIndex := 0

  /** The arguments of the client's one call to rawhid_open. */
  const OpenCall := HidOpen(1, VendorId, ProductId, -1, -1)

  /** How send and recv read the driver's return code. */
  datatype Outcome = Delivered | TimedOut | Failed

  /** 0 is a timeout, -1 an error, and every other value (negative ones included) a success. */
  function OutcomeOf(code: int): (o: Outcome)
    ensures o == TimedOut <==> code == 0
    ensures o == Failed <==> code == -1
    ensures o == Delivered <==> code != 0 && code != -1
  {
    if code == 0 then TimedOut else if code == -1 then Failed else Delivered
  }

  /** An operation's value, or the Win32Exception it throws with the driver's last error. */
  datatype Result<T> = Ok(value: T) | Win32Exception(errorCode: int)

  /** What the session can observe of itself and its driver. */
  datatype Link = Link(connected: bool, alerts: nat, log: seq<Call>, script: seq<Reply>, lastError: int)

  /** The state after one logged driver call that consumed the next scripted reply. */
  function Consume(k: Link, call: Call): Link
  {
    k.(log := k.log + [call], script := Rest(k.script), lastError := Next(k.script).error)
  }

  // ---------------------------------------------------------------------
  // The session, as functions of the observable state

  /** openDevice: nothing to do when connected, otherwise one rawhid_open. */
  function OpenSpec(k: Link): (r: (Link, bool))
    ensures r.1 == r.0.connected
    ensures r.0.alerts == k.alerts
  {
    if k.connected then (k, true)
    else
      var k1 := Consume(k, OpenCall).(connected := Next(k.script).code != 0);
      (k1, k1.connected)
  }

  /** closeDevice: one rawhid_close when connected, nothing otherwise. */
  function CloseSpec(k: Link): (k1: Link)
    ensures !k1.connected
    ensures k1.script == k.script && k1.lastError == k.lastError && k1.alerts == k.alerts
  {
    if k.connected then k.(connected := false, log := k.log + [HidClose(DeviceIndex)]) else k
  }

  /** send: one rawhid_send; a timeout raises an alert and carries on, an error throws. */
  function SendSpec(k: Link, report: seq<Byte>): (r: (Link, Result<()>))
    ensures r.0.connected == k.connected
    ensures r.1.Win32Exception? <==> Next(k.script).code == -1
  {
    var r := Next(k.script);
    var k1 := Consume(k, HidSend(DeviceIndex, report, ReportSize, SendTimeout));
    match OutcomeOf(r.code)
    case Delivered => (k1, Ok(()))
    case TimedOut => (k1.(alerts := k1.alerts + 1), Ok(()))
    case Failed => (k1, Win32Exception(r.error))
  }

  /** recv: one rawhid_recv, with send's reading of the return code. */
  function RecvSpec(k: Link): (r: (Link, Result<()>))
    ensures r.0.connected == k.connected
    ensures r.1.Win32Exception? <==> Next(k.script).code == -1
  {
    var r := Next(k.script);
    var k1 := Consume(k, HidRecv(DeviceIndex, ReportSize, RecvTimeout));
    match OutcomeOf(r.code)
    case Delivered => (k1, Ok(()))
    case TimedOut => (k1.(alerts := k1.alerts + 1), Ok(()))
    case Failed => (k1, Win32Exception(r.error))
  }

  /**
   * A query: send the report, then (unless the send threw) receive into a
   * fresh zeroed 64-byte buffer; the result is that buffer's contents.
   */
  function QuerySpec(k: Link, report: seq<Byte>): (r: (Link, Result<seq<Byte>>))
    ensures r.0.connected == k.connected
    ensures r.1.Ok? ==> |r.1.value| == ReportSize
  {
    var (k1, sent) := SendSpec(k, report);
    if sent.Win32Exception? then (k1, Win32Exception(sent.errorCode))
    else
      var (k2, got) := RecvSpec(k1);
      if got.Win32Exception? then (k2, Win32Exception(got.errorCode))
      else (k2, Ok(Filled(Zeros(ReportSize), Next(k1.script))))
  }

  /** readFactorySettings: the query, then its decoder; both words fit 16 bits. */
  function ReadFactorySettingsSpec(k: Link): (r: (Link, Result<FactorySettings>))
    ensures r.1.Ok? ==> 0 <= r.1.value.firmwareVersion < 0x1_0000 && 0 <= r.1.value.serialNumber < 0x1_0000
  {
    var (k1, got) := QuerySpec(k, FactorySettingsQuery());
    (k1, if got.Ok? then Ok(FactorySettingsOf(got.value)) else Win32Exception(got.errorCode))
  }

  /** readStatus: the query, then its decoder; the status is one the wire format can carry. */
  function ReadStatusSpec(k: Link): (r: (Link, Result<Status>))
    ensures r.1.Ok? ==> Representable(r.1.value)
  {
    var (k1, got) := QuerySpec(k, StatusQuery());
    (k1, if got.Ok? then Ok(StatusOf(got.value)) else Win32Exception(got.errorCode))
  }

  /** readOutput: the query, then its decoder; the name fits the 16-byte field. */
  function ReadOutputSpec(k: Link, outputNumber: int): (r: (Link, Result<OutputConfig>))
    ensures r.1.Ok? ==> |r.1.value.name| <= NameLength && 0 <= r.1.value.fuseCurrent < 0x100
  {
    var (k1, got) := QuerySpec(k, OutputQuery(outputNumber));
    (k1, if got.Ok? then Ok(OutputOf(got.value)) else Win32Exception(got.errorCode))
  }

  // ---------------------------------------------------------------------
  // What the session functions promise

  /**
   * openDevice reports whether the session is connected afterwards; once it
   * has succeeded, calling it again changes nothing and makes no driver call.
   */
  lemma OpenIdempotent(k: Link)
    ensures var (k1, ok) := OpenSpec(k);
      && ok == k1.connected
      && (k.connected ==> k1 == k)
      && (ok ==> OpenSpec(k1) == (k1, true))
      && (!k.connected ==> k1.log == k.log + [OpenCall] && ok == (Next(k.script).code != 0))
  {
  }

  /** closeDevice always leaves the session disconnected, and does nothing when it already was. */
  lemma CloseIdempotent(k: Link)
    ensures !CloseSpec(k).connected
    ensures !k.connected ==> CloseSpec(k) == k
    ensures k.connected ==> CloseSpec(k).log == k.log + [HidClose(DeviceIndex)]
    ensures CloseSpec(CloseSpec(k)) == CloseSpec(k)
  {
  }

  /**
   * A command makes exactly one driver call, a send of its report; it shows
   * one alert on a timeout and throws the driver's error on -1.
   */
  lemma CommandCalls(k: Link, report: seq<Byte>)
    ensures var (k1, r) := SendSpec(k, report);
      && k1.log == k.log + [HidSend(DeviceIndex, report, ReportSize, SendTimeout)]
      && k1.script == Rest(k.script)
      && k1.connected == k.connected
      && k1.alerts == k.alerts + (if Next(k.script).code == 0 then 1 else 0)
      && (r.Win32Exception? <==> Next(k.script).code == -1)
      && (r.Win32Exception? ==> r.errorCode == Next(k.script).error)
  {
  }

  /**
   * A query sends its report and then receives exactly once, unless the
   * send threw; its result is a whole 64-byte report, and each timeout along
   * the way shows one alert.
   */
  lemma {:induction false} QueryCalls(k: Link, report: seq<Byte>)
    ensures var (k1, got) := QuerySpec(k, report);
      var sendCode := Next(k.script).code;
      var recvCode := Next(Rest(k.script)).code;
      && k1.connected == k.connected
      && (sendCode == -1 ==> k1.log == k.log + [HidSend(DeviceIndex, report, ReportSize, SendTimeout)])
      && (sendCode != -1 ==> k1.log == k.log + [HidSend(DeviceIndex, report, ReportSize, SendTimeout), HidRecv(DeviceIndex, ReportSize, RecvTimeout)])
      && (got.Ok? <==> sendCode != -1 && recvCode != -1)
      && (got.Ok? ==> |got.value| == ReportSize)
      && (got.Ok? ==> k1.alerts == k.alerts + (if sendCode == 0 then 1 else 0) + (if recvCode == 0 then 1 else 0))
  {
    var k0 := SendSpec(k, report).0;
    assert Next(k0.script) == Next(Rest(k.script));
    assert k0.log == k.log + [HidSend(DeviceIndex, report, ReportSize, SendTimeout)];
  }

  /**
   * When the receive times out (after a send that did not throw), the client
   * still decodes its zeroed buffer: it reports a status with every relay
   * closed, no fuse blown and every reading zero.
   */
  lemma {:induction false} TimeoutReadsZeroStatus(k: Link)
    requires Next(k.script).code != -1
    requires Next(Rest(k.script)).code == 0
    ensures ReadStatusSpec(k).1 == Ok(StatusOf(Zeros(ReportSize)))
  {
    var k0 := SendSpec(k, StatusQuery()).0;
    assert Next(k0.script) == Next(Rest(k.script));
  }

  /**
   * A device that accepts the status query and answers with the reply that
   * reports s makes readStatus return exactly s.
   */
  lemma {:induction false} ReadStatusEndToEnd(k: Link, s: Status)
    requires Representable(s)
    requires Next(k.script).code != -1
    requires Next(Rest(k.script)).code > 0 && Next(Rest(k.script)).data == StatusReply(s)
    ensures ReadStatusSpec(k).1 == Ok(s)
  {
    var k0 := SendSpec(k, StatusQuery()).0;
    assert Next(k0.script) == Next(Rest(k.script));
    var reply := StatusReply(s);
    assert reply[..ReportSize] == reply;
    assert QuerySpec(k, StatusQuery()).1 == Ok(reply);
    StatusRoundTrip(s);
  }

  /** Likewise for readFactorySettings and the reply carrying f. */
  lemma {:induction false} ReadFactorySettingsEndToEnd(k: Link, f: FactorySettings)
    requires 0 <= f.firmwareVersion < 0x1_0000 && 0 <= f.serialNumber < 0x1_0000
    requires Next(k.script).code != -1
    requires Next(Rest(k.script)).code > 0 && Next(Rest(k.script)).data == FactorySettingsReply(f)
    ensures ReadFactorySettingsSpec(k).1 == Ok(f)
  {
    var k0 := SendSpec(k, FactorySettingsQuery()).0;
    assert Next(k0.script) == Next(Rest(k.script));
    var reply := FactorySettingsReply(f);
    assert reply[..ReportSize] == reply;
    assert QuerySpec(k, FactorySettingsQuery()).1 == Ok(reply);
    FactorySettingsRoundTrip(f);
  }

  /**
   * configureOutput followed by readOutput, against a device that stores the
   * ConfigureOutputCommand it receives and reports it back: the client reads
   * back the output it configured (name within 16 bytes and not ending in
   * NUL, fuse current within a byte).
   */
  lemma {:induction false} ConfigureThenReadOutput(k: Link, outputNumber: int, output: OutputConfig)
    requires |output.name| <= NameLength
    requires output.name == [] || output.name[|output.name| - 1] != 0
    requires 0 <= output.fuseCurrent < 0x100
    requires |k.script| >= 3
    requires k.script[0].code != -1 && k.script[1].code != -1 && k.script[2].code > 0
    requires k.script[2].data == OutputSettingsReply(ParseConfigureOutput(ConfigureOutputReport(outputNumber, output)[2..]))
    ensures var (k1, sent) := SendSpec(k, ConfigureOutputReport(outputNumber, output));
      && sent == Ok(())
      && ReadOutputSpec(k1, outputNumber).1 == Ok(output)
  {
    var k1 := SendSpec(k, ConfigureOutputReport(outputNumber, output)).0;
    var k2 := SendSpec(k1, OutputQuery(outputNumber)).0;
    assert k1.script == k.script[1..];
    assert Next(k2.script) == k.script[2];
    var reply := k.script[2].data;
    assert reply[..ReportSize] == reply;
    assert QuerySpec(k1, OutputQuery(outputNumber)).1 == Ok(reply);
    OutputRoundTrip(outputNumber, output);
  }

  // ---------------------------------------------------------------------
  // The session, as the client runs it

  class KomaHubHid {
    var connected: bool
    var alerts: nat
    const hid: Driver

    function Snapshot(): Link
      reads this, hid
    {
      Link(connected, alerts, hid.log, hid.script, hid.lastError)
    }

    constructor (driver: Driver)
      ensures hid == driver && !connected && alerts == 0
    {
      hid := driver;
      connected := false;
      alerts := 0;
    }

    method OpenDevice() returns (ok: bool)
      modifies this, hid
      ensures (Snapshot(), ok) == OpenSpec(old(Snapshot()))
    {
      if connected {
        return true;
      }
      var count := hid.Open(1, VendorId, ProductId, -1, -1);
      connected := count != 0;
      ok := connected;
    }

    method CloseDevice()
      modifies this, hid
      ensures Snapshot() == CloseSpec(old(Snapshot()))
    {
      if connected {
        hid.Close(DeviceIndex);
        connected := false;
      }
    }

    method Send(report: seq<Byte>) returns (r: Result<()>)
      modifies this, hid
      ensures (Snapshot(), r) == SendSpec(old(Snapshot()), report)
    {
      var success := hid.Send(DeviceIndex, report, ReportSize, SendTimeout);
      if success == 0 {
        alerts := alerts + 1;
        r := Ok(());
      } else if success == -1 {
        r := Win32Exception(hid.lastError);
      } else {
        r := Ok(());
      }
    }

    method Recv(buffer: array<Byte>) returns (r: Result<()>)
      modifies this, hid, buffer
      ensures (Snapshot(), r) == RecvSpec(old(Snapshot()))
      ensures buffer[..] == Filled(old(buffer[..]), Next(old(hid.script)))
    {
      var success := hid.Recv(DeviceIndex, buffer, ReportSize, RecvTimeout);
      if success == 0 {
        alerts := alerts + 1;
        r := Ok(());
      } else if success == -1 {
        r := Win32Exception(hid.lastError);
      } else {
        r := Ok(());
      }
    }

    /** Send, then receive into a fresh zeroed report, as every query does. */
    method Query(report: seq<Byte>) returns (r: Result<array<Byte>>)
      modifies this, hid
      ensures r.Ok? ==> fresh(r.value)
      ensures var (k, got) := QuerySpec(old(Snapshot()), report);
        && Snapshot() == k
        && r.Ok? == got.Ok?
        && (r.Ok? ==> r.value[..] == got.value)
        && (r.Win32Exception? ==> r.errorCode == got.errorCode)
    {
      var result := new Byte[ReportSize](_ => 0);
      var sent := Send(report);
      if sent.Win32Exception? {
        return Win32Exception(sent.errorCode);
      }
      var got := Recv(result);
      if got.Win32Exception? {
        return Win32Exception(got.errorCode);
      }
      r := Ok(result);
    }

    method SetRelay(output: int, enabled: bool) returns (r: Result<()>)
      modifies this, hid
      ensures (Snapshot(), r) == SendSpec(old(Snapshot()), SetRelayReport(output, enabled))
    {
      var report := BuildSetRelay(output, enabled);
      r := Send(report);
    }

    method ResetFuse(output: int) returns (r: Result<()>)
      modifies this, hid
      ensures (Snapshot(), r) == SendSpec(old(Snapshot()), ResetFuseReport(output))
    {
      var report := BuildResetFuse(output);
      r := Send(report);
    }

    method ConfigureOutput(outputNumber: int, output: OutputConfig) returns (r: Result<()>)
      modifies this, hid
      ensures (Snapshot(), r) == SendSpec(old(Snapshot()), ConfigureOutputReport(outputNumber, output))
    {
      var report := BuildConfigureOutput(outputNumber, output);
      r := Send(report);
    }

    method SetPwmDuty(outputNumber: int, duty: int) returns (r: Result<()>)
      modifies this, hid
      ensures (Snapshot(), r) == SendSpec(old(Snapshot()), SetPwmDutyReport(outputNumber, duty))
    {
      var report := BuildSetPwmDuty(outputNumber, duty);
      r := Send(report);
    }

    method ReadFactorySettings() returns (r: Result<FactorySettings>)
      modifies this, hid
      ensures (Snapshot(), r) == ReadFactorySettingsSpec(old(Snapshot()))
    {
      var report := BuildFactorySettingsQuery();
      var got := Query(report);
      if got.Win32Exception? {
        return Win32Exception(got.errorCode);
      }
      var result := got.value;
      r := Ok(FactorySettingsOf(result[..]));
    }

    method ReadStatus() returns (r: Result<Status>)
      modifies this, hid
      ensures (Snapshot(), r) == ReadStatusSpec(old(Snapshot()))
    {
      var report := BuildStatusQuery();
      var got := Query(report);
      if got.Win32Exception? {
        return Win32Exception(got.errorCode);
      }
      var status := DecodeStatus(got.value);
      r := Ok(status);
    }

    method ReadOutput(outputNumber: int) returns (r: Result<OutputConfig>)
      modifies this, hid
      ensures (Snapshot(), r) == ReadOutputSpec(old(Snapshot()), outputNumber)
    {
      var report := BuildOutputQuery(outputNumber);
      var got := Query(report);
      if got.Win32Exception? {
        return Win32Exception(got.errorCode);
      }
      var result := got.value;
      r := Ok(OutputOf(result[..]));
    }
  }
}
