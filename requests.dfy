/**
 * The request reports the KomaHub client sends
 * (software/KomaHub/KomaHub/KomaHubHID.cs). Each builder fills a fresh,
 * zeroed 64-byte array in place, exactly as the client does before handing
 * it to the transport, and is proved to produce the report the firmware
 * expects: the magic byte, the command code from the firmware's table, the
 * command's payload struct, and zeros up to the end of the report.
 */
module Requests {

  import opened Bytes
  import opened UsbCommands
  import opened Fields
  import opened Domain

  /** Size of every HID report, in both directions. */
  const ReportSize: nat := 64

  /** KOMAHUB_MAGIC, the character 'K'. */
  const Magic: Byte := 0x4B

  const VendorId := 0x1209
  const ProductId := 0x4242

  // The client's own copy of the command codes (class Commands).
  const IdentifyCode: Byte := 0x01
  const GetFactorySettingsCode: Byte := 0x02
  const GetOutputSettingsCode: Byte := 0x03
  const GetStatusCode: Byte := 0x04
  const SetRelayCode: Byte := 0x10
  const SetPwmDutyCode: Byte := 0x11
  const ResetFuseCode: Byte := 0x12
  const ConfigureOutputCode: Byte := 0x13

  /** The client's command constants are the firmware's enumerator values. */
  lemma ClientCodesMatchFirmware()
    ensures IdentifyCode == Code(Identify)
    ensures GetFactorySettingsCode == Code(GetFactorySettings)
    ensures GetOutputSettingsCode == Code(GetOutputSettings)
    ensures GetStatusCode == Code(GetStatus)
    ensures SetRelayCode == Code(SetRelay)
    ensures SetPwmDutyCode == Code(SetPwmDuty)
    ensures ResetFuseCode == Code(ResetFuse)
    ensures ConfigureOutputCode == Code(ConfigureOutput)
  {
  }

  /** A request report: magic, command code, payload, then zeros to the end. */
  function Request(code: Byte, payload: seq<Byte>): (r: seq<Byte>)
    requires 2 + |payload| <= ReportSize
    ensures |r| == ReportSize
    ensures r[0] == Magic && r[1] == code
    ensures r[2..2 + |payload|] == payload
    ensures forall i :: 2 + |payload| <= i < ReportSize ==> r[i] == 0
  {
    [Magic, code] + payload + Zeros(ReportSize - 2 - |payload|)
  }

  /** The report of command c carrying payload p is framed as the firmware expects. */
  predicate IsRequestFor(r: seq<Byte>, c: UsbCommand, p: seq<Byte>)
  {
    && |r| == ReportSize
    && r[0] == Magic
    && r[1] == Code(c)
    && 2 + |p| <= ReportSize
    && r[2..2 + |p|] == p
    && forall i :: 2 + |p| <= i < ReportSize ==> r[i] == 0
  }

  // The reports, as the firmware reads them.

  function SetRelayReport(output: int, enabled: bool): seq<Byte>
  {
    Request(Code(SetRelay), SetRelayCommand(ByteOf(output), if enabled then 1 else 0).Serialize())
  }

  function ResetFuseReport(output: int): seq<Byte>
  {
    Request(Code(ResetFuse), ResetFuseCommand(ByteOf(output)).Serialize())
  }

  function SetPwmDutyReport(outputNumber: int, duty: int): seq<Byte>
  {
    Request(Code(SetPwmDuty), SetPwmDutyCommand(ByteOf(outputNumber), ByteOf(duty)).Serialize())
  }

  /** The ConfigureOutputCommand the client means to send for `output`. */
  function ConfigureOutputPayload(outputNumber: int, output: OutputConfig): (c: ConfigureOutputCommand)
    ensures c.Valid()
  {
    ConfigureOutputCommand(ByteOf(outputNumber), output.outputType, ByteOf(output.fuseCurrent), PadName(output.name))
  }

  function ConfigureOutputReport(outputNumber: int, output: OutputConfig): seq<Byte>
  {
    Request(Code(ConfigureOutput), ConfigureOutputPayload(outputNumber, output).Serialize())
  }

  function FactorySettingsQuery(): seq<Byte>
  {
    Request(Code(GetFactorySettings), [])
  }

  function StatusQuery(): seq<Byte>
  {
    Request(Code(GetStatus), [])
  }

  function OutputQuery(outputNumber: int): seq<Byte>
  {
    Request(Code(GetOutputSettings), GetOutputSettingsCommand(ByteOf(outputNumber)).Serialize())
  }

  // The builders, as the client writes them.

  /** The report half of setRelay: bytes 0-3 written, the rest left zero. */
  method BuildSetRelay(output: int, enabled: bool) returns (report: seq<Byte>)
    ensures report == SetRelayReport(output, enabled)
    ensures IsRequestFor(report, SetRelay, [ByteOf(output), if enabled then 1 else 0])
  {
    var a := new Byte[ReportSize](_ => 0);
    a[0] := Magic;
    a[1] := SetRelayCode;
    a[2] := ByteOf(output);
    a[3] := if enabled then 1 else 0;
    report := a[..];
    assert report == SetRelayReport(output, enabled);
  }

  /** The report half of resetFuse: bytes 0-2 written. */
  method BuildResetFuse(output: int) returns (report: seq<Byte>)
    ensures report == ResetFuseReport(output)
    ensures IsRequestFor(report, ResetFuse, [ByteOf(output)])
  {
    var a := new Byte[ReportSize](_ => 0);
    a[0] := Magic;
    a[1] := ResetFuseCode;
    a[2] := ByteOf(output);
    report := a[..];
    assert report == ResetFuseReport(output);
  }

  /** The report half of setPwmDuty: bytes 0-3 written; the duty is not range-checked. */
  method BuildSetPwmDuty(outputNumber: int, duty: int) returns (report: seq<Byte>)
    ensures report == SetPwmDutyReport(outputNumber, duty)
    ensures IsRequestFor(report, SetPwmDuty, [ByteOf(outputNumber), ByteOf(duty)])
  {
    var a := new Byte[ReportSize](_ => 0);
    a[0] := Magic;
    a[1] := SetPwmDutyCode;
    a[2] := ByteOf(outputNumber);
    a[3] := ByteOf(duty);
    report := a[..];
    assert report == SetPwmDutyReport(outputNumber, duty);
  }

  /**
   * The report half of configureOutput: bytes 2-4 written from the number,
   * type and fuse current, then the name loop fills bytes 5-20.
   */
  method BuildConfigureOutput(outputNumber: int, output: OutputConfig) returns (report: seq<Byte>)
    ensures report == ConfigureOutputReport(outputNumber, output)
    ensures IsRequestFor(report, ConfigureOutput, ConfigureOutputPayload(outputNumber, output).Serialize())
  {
    var a := new Byte[ReportSize](_ => 0);
    a[0] := Magic;
    a[1] := ConfigureOutputCode;
    a[2] := ByteOf(outputNumber);
    a[3] := output.outputType;
    a[4] := ByteOf(output.fuseCurrent);
    CopyName(a, output.name);
    report := a[..];
    ConfigureOutputReportBytes(outputNumber, output, report);
  }

  /**
   * The loop of configureOutput: copies the name into bytes 5-20, padding
   * with zeros past its end and dropping what lies beyond 16 bytes.
   */
  method CopyName(a: array<Byte>, nameBytes: seq<Byte>)
    requires a.Length == ReportSize
    modifies a
    ensures a[5..21] == PadName(nameBytes)
    ensures forall k :: 0 <= k < 5 || 21 <= k < ReportSize ==> a[k] == old(a[k])
  {
    ghost var field := PadName(nameBytes);
    for i := 0 to NameLength
      invariant a[5..5 + i] == field[..i]
      invariant forall k :: 0 <= k < 5 || 5 + i <= k < ReportSize ==> a[k] == old(a[k])
    {
      a[5 + i] := if i < |nameBytes| then nameBytes[i] else 0;
      assert a[5..5 + i + 1] == a[5..5 + i] + [a[5 + i]];
    }
  }

  /** A report laid out with the configureOutput header, name field and zero tail is that report. */
  lemma {:induction false} ConfigureOutputReportBytes(outputNumber: int, output: OutputConfig, r: seq<Byte>)
    requires |r| == ReportSize
    requires r[..5] == [Magic, ConfigureOutputCode, ByteOf(outputNumber), output.outputType, ByteOf(output.fuseCurrent)]
    requires r[5..21] == PadName(output.name)
    requires forall k :: 21 <= k < ReportSize ==> r[k] == 0
    ensures r == ConfigureOutputReport(outputNumber, output)
  {
    var p := ConfigureOutputPayload(outputNumber, output).Serialize();
    assert r[21..] == Zeros(ReportSize - 21);
    assert r == r[..5] + r[5..21] + r[21..];
    assert p == r[2..5] + r[5..21];
  }

  /** The report half of readFactorySettings. */
  method BuildFactorySettingsQuery() returns (report: seq<Byte>)
    ensures report == FactorySettingsQuery()
    ensures IsRequestFor(report, GetFactorySettings, [])
  {
    var a := new Byte[ReportSize](_ => 0);
    a[0] := Magic;
    a[1] := GetFactorySettingsCode;
    report := a[..];
    assert report == FactorySettingsQuery();
  }

  /** The report half of readStatus. */
  method BuildStatusQuery() returns (report: seq<Byte>)
    ensures report == StatusQuery()
    ensures IsRequestFor(report, GetStatus, [])
  {
    var a := new Byte[ReportSize](_ => 0);
    a[0] := Magic;
    a[1] := GetStatusCode;
    report := a[..];
    assert report == StatusQuery();
  }

  /** The report half of readOutput. */
  method BuildOutputQuery(outputNumber: int) returns (report: seq<Byte>)
    ensures report == OutputQuery(outputNumber)
    ensures IsRequestFor(report, GetOutputSettings, [ByteOf(outputNumber)])
  {
    var a := new Byte[ReportSize](_ => 0);
    a[0] := Magic;
    a[1] := GetOutputSettingsCode;
    a[2] := ByteOf(outputNumber);
    report := a[..];
    assert report == OutputQuery(outputNumber);
  }

  /**
   * The firmware, laying ConfigureOutputCommand over the payload of a
   * configureOutput report, finds the output number, type and fuse current
   * the client wrote at bytes 2, 3 and 4 and the 16-byte name field at
   * bytes 5-20: the first 16 name bytes, zero-padded.
   */
  lemma {:induction false} ConfigureOutputLayout(outputNumber: int, output: OutputConfig)
    ensures var r := ConfigureOutputReport(outputNumber, output);
      && ParseConfigureOutput(r[2..]) == ConfigureOutputPayload(outputNumber, output)
      && r[2] == ByteOf(outputNumber) && r[3] == output.outputType && r[4] == ByteOf(output.fuseCurrent)
      && r[5..21] == PadName(output.name)
      && (|output.name| >= NameLength ==> r[5..21] == output.name[..NameLength])
      && forall i :: 21 <= i < ReportSize ==> r[i] == 0
  {
    var r := ConfigureOutputReport(outputNumber, output);
    var c := ConfigureOutputPayload(outputNumber, output);
    var p := c.Serialize();
    assert r[2..2 + |p|] == p;
    assert r[2..][..MaxPayloadSize] == p;
    ConfigureOutputRoundTrip(c);
    assert r[5..21] == p[3..];
  }

  /** A duty within the documented 0-100 reaches the firmware unchanged. */
  lemma PwmDutyReachesFirmware(outputNumber: int, duty: int)
    requires 0 <= duty <= 100
    ensures SetPwmDutyReport(outputNumber, duty)[3] == duty
  {
    var p := SetPwmDutyCommand(ByteOf(outputNumber), ByteOf(duty)).Serialize();
    assert SetPwmDutyReport(outputNumber, duty)[2..4] == p;
  }
}
