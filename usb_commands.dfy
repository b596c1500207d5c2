/**
 * The command table and the request payload layouts that the KomaHub firmware
 * and its host client agree on (firmware/src/USBCommands.h).
 *
 * A request travels in one 64-byte HID report: byte 0 is the protocol magic,
 * byte 1 the command code, and the command's payload struct follows from
 * byte 2 on. Every payload struct here is made of `uint8_t` fields (and one
 * `char[16]`), so it has no padding and its fields sit at consecutive offsets.
 */
module UsbCommands {

  import opened Bytes

  datatype Option<T> = None | Some(value: T)

  /** `enum USBCommand` */
  datatype UsbCommand =
    | End
    | Identify
    | GetFactorySettings
    | GetOutputSettings
    | GetStatus
    | SetRelay
    | SetPwmDuty
    | ResetFuse
    | ConfigureOutput
    | DumpFactory
    | DumpOutputs
    | DumpState
    | FactoryReset

  /**
   * The enumerator's value, the byte that travels at offset 1 of a report.
   * The table groups its codes: requests that read from the device below
   * 0x10, requests that change an output from 0x10, and the firmware's own
   * diagnostics and reset from 0xF0.
   */
  function Code(c: UsbCommand): (b: Byte)
    ensures b < 0x10 <==> c.End? || c.Identify? || c.GetFactorySettings? || c.GetOutputSettings? || c.GetStatus?
    ensures 0x10 <= b < 0x20 <==> c.SetRelay? || c.SetPwmDuty? || c.ResetFuse? || c.ConfigureOutput?
    ensures b >= 0xF0 <==> c.DumpFactory? || c.DumpOutputs? || c.DumpState? || c.FactoryReset?
  {
    match c
    case End => 0x00
    case Identify => 0x01
    case GetFactorySettings => 0x02
    case GetOutputSettings => 0x03
    case GetStatus => 0x04
    case SetRelay => 0x10
    case SetPwmDuty => 0x11
    case ResetFuse => 0x12
    case ConfigureOutput => 0x13
    case DumpFactory => 0xF0
    case DumpOutputs => 0xF1
    case DumpState => 0xF2
    case FactoryReset => 0xFA
  }

  /** The command a received code byte selects, if any: how the firmware reads byte 1. */
  function CommandOf(b: Byte): (r: Option<UsbCommand>)
    ensures r.Some? ==> Code(r.value) == b
    ensures r.None? ==> forall c: UsbCommand :: Code(c) != b
  {
    if b == 0x00 then Some(End)
    else if b == 0x01 then Some(Identify)
    else if b == 0x02 then Some(GetFactorySettings)
    else if b == 0x03 then Some(GetOutputSettings)
    else if b == 0x04 then Some(GetStatus)
    else if b == 0x10 then Some(SetRelay)
    else if b == 0x11 then Some(SetPwmDuty)
    else if b == 0x12 then Some(ResetFuse)
    else if b == 0x13 then Some(ConfigureOutput)
    else if b == 0xF0 then Some(DumpFactory)
    else if b == 0xF1 then Some(DumpOutputs)
    else if b == 0xF2 then Some(DumpState)
    else if b == 0xFA then Some(FactoryReset)
    else None
  }

  /** Every command is recovered from its code ... */
  lemma {:induction false} CommandOfCode(c: UsbCommand)
    ensures CommandOf(Code(c)) == Some(c)
  {
    match c
    case End =>
    case Identify =>
    case GetFactorySettings =>
    case GetOutputSettings =>
    case GetStatus =>
    case SetRelay =>
    case SetPwmDuty =>
    case ResetFuse =>
    case ConfigureOutput =>
    case DumpFactory =>
    case DumpOutputs =>
    case DumpState =>
    case FactoryReset =>
  }

  /** ... so no two enumerators share a value. */
  lemma {:induction false} CodesDistinct(c: UsbCommand, d: UsbCommand)
    requires c != d
    ensures Code(c) != Code(d)
  {
    CommandOfCode(c);
    CommandOfCode(d);
  }

  /** Length of `char name[16]` in ConfigureOutputCommand. */
  const NameLength := 16

  /** Largest request payload: sizeof(ConfigureOutputCommand). */
  const MaxPayloadSize := 19

  /** `struct GetOutputSettingsCommand` */
  datatype GetOutputSettingsCommand = GetOutputSettingsCommand(outputNumber: Byte)
  {
    function Serialize(): (r: seq<Byte>)
      ensures |r| == 1
    {
      [outputNumber]
    }
  }

  /** `struct SetRelayCommand` */
  datatype SetRelayCommand = SetRelayCommand(outputNumber: Byte, enabled: Byte)
  {
    function Serialize(): (r: seq<Byte>)
      ensures |r| == 2
    {
      [outputNumber, enabled]
    }
  }

  /** `struct SetPwmDutyCommand`; the header documents duty as a percentage 0-100. */
  datatype SetPwmDutyCommand = SetPwmDutyCommand(outputNumber: Byte, duty: Byte)
  {
    function Serialize(): (r: seq<Byte>)
      ensures |r| == 2
    {
      [outputNumber, duty]
    }
  }

  /** `struct ResetFuseCommand` */
  datatype ResetFuseCommand = ResetFuseCommand(outputNumber: Byte)
  {
    function Serialize(): (r: seq<Byte>)
      ensures |r| == 1
    {
      [outputNumber]
    }
  }

  /** `struct ConfigureOutputCommand`; `name` is the raw `char[16]` field. */
  datatype ConfigureOutputCommand = ConfigureOutputCommand(outputNumber: Byte, outputType: Byte, fuseCurrent: Byte, name: seq<Byte>)
  {
    predicate Valid()
    {
      |name| == NameLength
    }

    function Serialize(): (r: seq<Byte>)
      requires Valid()
      ensures |r| == MaxPayloadSize
    {
      [outputNumber, outputType, fuseCurrent] + name
    }
  }

  /**
   * The firmware's view of a ConfigureOutputCommand payload: the struct laid
   * over the first 19 payload bytes.
   */
  function ParseConfigureOutput(payload: seq<Byte>): (c: ConfigureOutputCommand)
    requires |payload| >= MaxPayloadSize
    ensures c.Valid()
    ensures c.Serialize() == payload[..MaxPayloadSize]
  {
    ConfigureOutputCommand(payload[0], payload[1], payload[2], payload[3..MaxPayloadSize])
  }

  /** Laying the struct over its own bytes gives the struct back. */
  lemma {:induction false} ConfigureOutputRoundTrip(c: ConfigureOutputCommand)
    requires c.Valid()
    ensures ParseConfigureOutput(c.Serialize()) == c
  {
    var b := c.Serialize();
    assert b[3..MaxPayloadSize] == c.name;
  }

  /** sizeof(uint16_t), the field type of FactoryResetCommand. */
  const UInt16Size := 2

  /** Size in bytes of the payload struct a command carries (0 when it carries none). */
  function PayloadSize(c: UsbCommand): (n: nat)
    ensures n <= MaxPayloadSize
    ensures 2 + n <= 64
  {
    match c
    case GetOutputSettings => 1
    case SetRelay => 2
    case SetPwmDuty => 2
    case ResetFuse => 1
    case ConfigureOutput => MaxPayloadSize
    case FactoryReset => 3 * UInt16Size
    case _ => 0
  }

  /** The size each command's table entry gives is the length of the struct it carries. */
  lemma PayloadSizeIsStructSize(outputNumber: Byte, b: Byte, c: ConfigureOutputCommand)
    requires c.Valid()
    ensures PayloadSize(GetOutputSettings) == |GetOutputSettingsCommand(outputNumber).Serialize()|
    ensures PayloadSize(SetRelay) == |SetRelayCommand(outputNumber, b).Serialize()|
    ensures PayloadSize(SetPwmDuty) == |SetPwmDutyCommand(outputNumber, b).Serialize()|
    ensures PayloadSize(ResetFuse) == |ResetFuseCommand(outputNumber).Serialize()|
    ensures PayloadSize(ConfigureOutput) == |c.Serialize()|
  {
  }
}
