/**
 * Decoding of the KomaHub device's response reports on the host side
 * (software/KomaHub/KomaHub/KomaHubHID.cs): factory settings, one output's
 * settings, and the status block. Each decoder is paired with the layout a
 * device fills, and the pair is proved to round-trip.
 */
module Responses {

  import opened Bytes
  import opened UsbCommands
  import opened Fields
  import opened Domain
  import opened Requests

  // ---------------------------------------------------------------------
  // Factory settings: two little-endian 16-bit words at bytes 0-1 and 2-3.

  /** The decoding half of readFactorySettings. */
  function FactorySettingsOf(result: seq<Byte>): (f: FactorySettings)
    requires |result| == ReportSize
    ensures 0 <= f.firmwareVersion < 0x1_0000 && 0 <= f.serialNumber < 0x1_0000
    ensures f.firmwareVersion / 256 == result[1] && f.firmwareVersion % 256 == result[0]
    ensures f.serialNumber / 256 == result[3] && f.serialNumber % 256 == result[2]
  {
    LeUInt16Bytes(result[0], result[1]);
    LeUInt16Bytes(result[2], result[3]);
    FactorySettings(LeUInt16(result[0], result[1]), LeUInt16(result[2], result[3]))
  }

  /** A factory-settings reply carrying the two 16-bit words of f. */
  function FactorySettingsReply(f: FactorySettings): (r: seq<Byte>)
    requires 0 <= f.firmwareVersion < 0x1_0000 && 0 <= f.serialNumber < 0x1_0000
    ensures |r| == ReportSize
  {
    [f.firmwareVersion % 256, f.firmwareVersion / 256, f.serialNumber % 256, f.serialNumber / 256]
      + Zeros(ReportSize - 4)
  }

  lemma {:induction false} FactorySettingsRoundTrip(f: FactorySettings)
    requires 0 <= f.firmwareVersion < 0x1_0000 && 0 <= f.serialNumber < 0x1_0000
    ensures FactorySettingsOf(FactorySettingsReply(f)) == f
  {
    var r := FactorySettingsReply(f);
    var g := FactorySettingsOf(r);
    assert g.firmwareVersion == 256 * (g.firmwareVersion / 256) + g.firmwareVersion % 256;
    assert g.serialNumber == 256 * (g.serialNumber / 256) + g.serialNumber % 256;
  }

  // ---------------------------------------------------------------------
  // Output settings: the 16-byte name field, the fuse byte, the type byte.

  const FuseOffset := NameLength
  const TypeOffset := NameLength + 1

  /** The decoding half of readOutput. */
  function OutputOf(result: seq<Byte>): (o: OutputConfig)
    requires |result| == ReportSize
    ensures o.name <= result[..NameLength]
    ensures o.name == [] || o.name[|o.name| - 1] != 0
    ensures forall i :: |o.name| <= i < NameLength ==> result[i] == 0
    ensures 0 <= o.fuseCurrent < 0x100 && o.fuseCurrent == result[FuseOffset]
    ensures o.outputType == result[TypeOffset]
  {
    OutputConfig(TrimNuls(result[..NameLength]), result[FuseOffset], result[TypeOffset])
  }

  /** A device's reply to GetOutputSettings for an output it stores as c. */
  function OutputSettingsReply(c: ConfigureOutputCommand): (r: seq<Byte>)
    requires c.Valid()
    ensures |r| == ReportSize
  {
    c.name + [c.fuseCurrent, c.outputType] + Zeros(ReportSize - NameLength - 2)
  }

  /**
   * An output configured through configureOutput and read back through
   * readOutput keeps its type and fuse current (when that fits a byte), and
   * its name when the name fits 16 bytes and does not end in NUL.
   */
  lemma {:induction false} OutputRoundTrip(outputNumber: int, output: OutputConfig)
    requires |output.name| <= NameLength
    requires output.name == [] || output.name[|output.name| - 1] != 0
    requires 0 <= output.fuseCurrent < 0x100
    ensures var stored := ParseConfigureOutput(ConfigureOutputReport(outputNumber, output)[2..]);
      OutputOf(OutputSettingsReply(stored)) == output
  {
    ConfigureOutputLayout(outputNumber, output);
    var stored := ParseConfigureOutput(ConfigureOutputReport(outputNumber, output)[2..]);
    var r := OutputSettingsReply(stored);
    assert r[..NameLength] == PadName(output.name);
    NameRoundTrip(output.name);
  }

  // ---------------------------------------------------------------------
  // Status

  const InputVoltageOffset := 2 + OutputCount
  const CurrentsOffset := 2 + OutputCount + 1

  /** The six per-output flags a bitmask byte carries in bits 0 to 5. */
  function Flags(b: Byte): (f: seq<bool>)
    ensures |f| == OutputCount
    ensures forall i :: 0 <= i < OutputCount ==> f[i] == BitSet(b, i)
  {
    seq(OutputCount, i requires 0 <= i < OutputCount => BitSet(b, i))
  }

  /** The decoding half of readStatus, as a function of the response bytes. */
  function StatusOf(result: seq<Byte>): (s: Status)
    requires |result| == ReportSize
    ensures Representable(s)
  {
    Status(
      relayIsOpen := Flags(result[0]),
      fuseIsBlown := Flags(result[1]),
      pwmDuty := result[2..2 + OutputCount],
      outputCurrent := result[CurrentsOffset..CurrentsOffset + OutputCount],
      inputVoltage := result[InputVoltageOffset],
      numberOfExternalTemperatures := result[15],
      externalTemperatures := [
        ReadInt16(result[16], result[17]), ReadInt16(result[18], result[19]),
        ReadInt16(result[20], result[21]), ReadInt16(result[22], result[23])],
      temperature := ReadInt16(result[24], result[25]),
      dewpoint := ReadInt16(result[26], result[27]),
      humidity := result[28],
      pressure := ReadInt16(result[29], result[30]),
      skyQuality := result[31],
      skyTemperature := ReadInt16(result[32], result[33]),
      skyTemperatureAmbient := ReadInt16(result[34], result[35]),
      pthPresent := result[36] > 0,
      skyQualityPresent := result[37] > 0,
      skyTemperaturePresent := result[38] > 0,
      skyQualityFreq := ReadUInt32(result[39], result[40], result[41], result[42]))
  }

  /** The client's flag test `(b & (1 << i)) != 0`. */
  method TestBit(b: Byte, i: nat) returns (isSet: bool)
    requires i < 8
    ensures isSet == BitSet(b, i)
  {
    isSet := BitAnd(b, Mask(i)) != 0;
    MaskTest(b, i);
  }

  /**
   * The loop of readStatus: for each output, test its bit of the relay and
   * fuse bytes with a mask and copy its duty and current bytes. The four
   * fresh six-element arrays the client fills are never shared before the
   * status is returned, so they are kept here as sequences updated index by
   * index.
   */
  method DecodeOutputs(result: array<Byte>) returns (relayIsOpen: seq<bool>, fuseIsBlown: seq<bool>, pwmDuty: seq<Byte>, outputCurrent: seq<int>)
    requires result.Length == ReportSize
    ensures relayIsOpen == Flags(result[0]) && fuseIsBlown == Flags(result[1])
    ensures pwmDuty == result[2..2 + OutputCount]
    ensures outputCurrent == result[CurrentsOffset..CurrentsOffset + OutputCount]
  {
    relayIsOpen, fuseIsBlown := seq(OutputCount, _ => false), seq(OutputCount, _ => false);
    pwmDuty, outputCurrent := Zeros(OutputCount), seq(OutputCount, _ => 0);
    for output := 0 to OutputCount
      invariant |relayIsOpen| == |fuseIsBlown| == |pwmDuty| == |outputCurrent| == OutputCount
      invariant forall i :: 0 <= i < output ==> relayIsOpen[i] == BitSet(result[0], i)
      invariant forall i :: 0 <= i < output ==> fuseIsBlown[i] == BitSet(result[1], i)
      invariant forall i :: 0 <= i < output ==> pwmDuty[i] == result[2 + i]
      invariant forall i :: 0 <= i < output ==> outputCurrent[i] == result[CurrentsOffset + i]
    {
      var relayBit := TestBit(result[0], output);
      var fuseBit := TestBit(result[1], output);
      relayIsOpen := relayIsOpen[output := relayBit];
      fuseIsBlown := fuseIsBlown[output := fuseBit];
      pwmDuty := pwmDuty[output := result[2 + output]];
      outputCurrent := outputCurrent[output := result[2 + OutputCount + 1 + output]];
    }
  }

  /**
   * The decoding half of readStatus as the client runs it: the per-output
   * arrays come from the loop, the scalar fields from their fixed offsets.
   */
  method DecodeStatus(result: array<Byte>) returns (status: Status)
    requires result.Length == ReportSize
    ensures status == StatusOf(result[..])
    ensures forall i :: 0 <= i < OutputCount ==>
      && status.relayIsOpen[i] == BitSet(result[0], i)
      && status.fuseIsBlown[i] == BitSet(result[1], i)
      && status.pwmDuty[i] == result[2 + i]
      && status.outputCurrent[i] == result[CurrentsOffset + i]
  {
    var relayIsOpen, fuseIsBlown, pwmDuty, outputCurrent := DecodeOutputs(result);
    status := StatusOf(result[..]).(
      relayIsOpen := relayIsOpen,
      fuseIsBlown := fuseIsBlown,
      pwmDuty := pwmDuty,
      outputCurrent := outputCurrent);
  }

  /** Nothing open, nothing blown, every value zero, no sensor present. */
  function AllClear(): Status
  {
    var none := [false, false, false, false, false, false];
    var zeros := [0, 0, 0, 0, 0, 0];
    Status(none, none, zeros, zeros, 0, 0, [0, 0, 0, 0], 0, 0, 0, 0, 0, 0, 0, false, false, false, 0)
  }

  /** An all-zero reply reads as AllClear. */
  lemma {:induction false} ZeroStatus(result: seq<Byte>)
    requires |result| == ReportSize && forall k :: 0 <= k < ReportSize ==> result[k] == 0
    ensures StatusOf(result) == AllClear()
  {
    ZeroOutputs(result);
    ZeroReadings(result);
  }

  lemma {:induction false} ZeroOutputs(result: seq<Byte>)
    requires |result| == ReportSize && forall k :: 0 <= k < ReportSize ==> result[k] == 0
    ensures var s, t := StatusOf(result), AllClear();
      && s.relayIsOpen == t.relayIsOpen && s.fuseIsBlown == t.fuseIsBlown
      && s.pwmDuty == t.pwmDuty && s.outputCurrent == t.outputCurrent
  {
    FlagsOfZero();
    assert result[0] == 0 && result[1] == 0;
    assert result[2..2 + OutputCount] == AllClear().pwmDuty;
    assert result[CurrentsOffset..CurrentsOffset + OutputCount] == AllClear().outputCurrent;
  }

  lemma FlagsOfZero()
    ensures Flags(0) == AllClear().relayIsOpen
  {
    BitsOfZero(8);
  }

  lemma {:induction false} ZeroReadings(result: seq<Byte>)
    requires |result| == ReportSize && forall k :: 0 <= k < ReportSize ==> result[k] == 0
    ensures var s, t := StatusOf(result), AllClear();
      && s.externalTemperatures == t.externalTemperatures
      && s.temperature == 0 && s.dewpoint == 0 && s.pressure == 0
      && s.skyTemperature == 0 && s.skyTemperatureAmbient == 0 && s.skyQualityFreq == 0
  {
    ZeroInt16At(result, 16);
    ZeroInt16At(result, 18);
    ZeroInt16At(result, 20);
    ZeroInt16At(result, 22);
    ZeroInt16At(result, 24);
    ZeroInt16At(result, 26);
    ZeroInt16At(result, 29);
    ZeroInt16At(result, 32);
    ZeroInt16At(result, 34);
    assert result[39] == 0 && result[40] == 0 && result[41] == 0 && result[42] == 0;
  }

  lemma ZeroInt16At(result: seq<Byte>, at: nat)
    requires at + 1 < |result| && result[at] == 0 && result[at + 1] == 0
    ensures ReadInt16(result[at], result[at + 1]) == 0
  {
  }

  /**
   * relayIsOpen[i] follows bit i of byte 0 alone: flipping any bit j of that
   * byte flips relayIsOpen[j] (when j names an output) and leaves every other
   * relay flag, and every fuse flag, as it was. Likewise for byte 1 and
   * fuseIsBlown.
   */
  lemma {:induction false} RelayFlagsIndependent(result: seq<Byte>, i: nat, j: nat)
    requires |result| == ReportSize && i < OutputCount && j < 8
    ensures var flipped := StatusOf(result[0 := FlipBit(result[0], j)]);
      && flipped.relayIsOpen[i] == (if i == j then !StatusOf(result).relayIsOpen[i] else StatusOf(result).relayIsOpen[i])
      && flipped.fuseIsBlown == StatusOf(result).fuseIsBlown
  {
    FlipBitOnly(result[0], i, j);
  }

  lemma {:induction false} FuseFlagsIndependent(result: seq<Byte>, i: nat, j: nat)
    requires |result| == ReportSize && i < OutputCount && j < 8
    ensures var flipped := StatusOf(result[1 := FlipBit(result[1], j)]);
      && flipped.fuseIsBlown[i] == (if i == j then !StatusOf(result).fuseIsBlown[i] else StatusOf(result).fuseIsBlown[i])
      && flipped.relayIsOpen == StatusOf(result).relayIsOpen
  {
    FlipBitOnly(result[1], i, j);
  }

  /** A status the wire format can carry. */
  predicate Representable(s: Status)
  {
    && |s.relayIsOpen| == OutputCount && |s.fuseIsBlown| == OutputCount
    && |s.pwmDuty| == OutputCount && |s.outputCurrent| == OutputCount
    && (forall i :: 0 <= i < OutputCount ==> 0 <= s.outputCurrent[i] < 0x100)
    && 0 <= s.inputVoltage < 0x100
    && 0 <= s.numberOfExternalTemperatures < 0x100
    && |s.externalTemperatures| == ExternalTemperatureCount
    && (forall i :: 0 <= i < ExternalTemperatureCount ==> Int16Min <= s.externalTemperatures[i] <= Int16Max)
    && Int16Min <= s.temperature <= Int16Max
    && Int16Min <= s.dewpoint <= Int16Max
    && 0 <= s.humidity < 0x100
    && Int16Min <= s.pressure <= Int16Max
    && 0 <= s.skyQuality < 0x100
    && Int16Min <= s.skyTemperature <= Int16Max
    && Int16Min <= s.skyTemperatureAmbient <= Int16Max
    && -0x8000_0000 <= s.skyQualityFreq < 0x8000_0000
  }

  /** Byte k of the little-endian two's-complement encoding of a 16-bit value. */
  function Int16Byte(v: int, k: nat): Byte
    requires Int16Min <= v <= Int16Max && k < 2
  {
    if k == 0 then WriteInt16(v).0 else WriteInt16(v).1
  }

  /** Byte i of the status reply that reports s, in the layout readStatus reads. */
  function StatusByte(s: Status, i: nat): Byte
    requires Representable(s) && i < ReportSize
  {
    if i == 0 then PackBits(s.relayIsOpen)
    else if i == 1 then PackBits(s.fuseIsBlown)
    else if i < 8 then s.pwmDuty[i - 2]
    else if i == 8 then s.inputVoltage
    else if i < 15 then s.outputCurrent[i - 9]
    else if i == 15 then s.numberOfExternalTemperatures
    else if i < 24 then Int16Byte(s.externalTemperatures[(i - 16) / 2], (i - 16) % 2)
    else if i < 26 then Int16Byte(s.temperature, i - 24)
    else if i < 28 then Int16Byte(s.dewpoint, i - 26)
    else if i == 28 then s.humidity
    else if i < 31 then Int16Byte(s.pressure, i - 29)
    else if i == 31 then s.skyQuality
    else if i < 34 then Int16Byte(s.skyTemperature, i - 32)
    else if i < 36 then Int16Byte(s.skyTemperatureAmbient, i - 34)
    else if i == 36 then (if s.pthPresent then 1 else 0)
    else if i == 37 then (if s.skyQualityPresent then 1 else 0)
    else if i == 38 then (if s.skyTemperaturePresent then 1 else 0)
    else if i < 43 then WriteInt32(s.skyQualityFreq)[i - 39]
    else 0
  }

  /** The status reply a device sends to report s. */
  function StatusReply(s: Status): (r: seq<Byte>)
    requires Representable(s)
    ensures |r| == ReportSize
  {
    seq(ReportSize, i requires 0 <= i < ReportSize => StatusByte(s, i))
  }

  lemma {:induction false} FlagsRoundTrip(s: Status)
    requires Representable(s)
    ensures var t := StatusOf(StatusReply(s));
      t.relayIsOpen == s.relayIsOpen && t.fuseIsBlown == s.fuseIsBlown
  {
    var r := StatusReply(s);
    assert r[0] == PackBits(s.relayIsOpen);
    assert Flags(r[0]) == s.relayIsOpen;
    assert r[1] == PackBits(s.fuseIsBlown);
    assert Flags(r[1]) == s.fuseIsBlown;
  }

  lemma {:induction false} PerOutputRoundTrip(s: Status)
    requires Representable(s)
    ensures var t := StatusOf(StatusReply(s));
      && t.pwmDuty == s.pwmDuty && t.outputCurrent == s.outputCurrent
      && t.inputVoltage == s.inputVoltage
  {
    var r := StatusReply(s);
    assert r[2..2 + OutputCount] == s.pwmDuty;
    assert r[CurrentsOffset..CurrentsOffset + OutputCount] == s.outputCurrent;
  }

  /** Reading the 16-bit field at `at` of a reply written with value v gives v back. */
  lemma {:induction false} Int16FieldRoundTrip(r: seq<Byte>, at: nat, v: int)
    requires Int16Min <= v <= Int16Max && at + 1 < |r|
    requires r[at] == Int16Byte(v, 0) && r[at + 1] == Int16Byte(v, 1)
    ensures ReadInt16(r[at], r[at + 1]) == v
  {
    Int16RoundTrip(v);
  }

  lemma {:induction false} ExternalTemperaturesRoundTrip(s: Status)
    requires Representable(s)
    ensures var t := StatusOf(StatusReply(s));
      && t.numberOfExternalTemperatures == s.numberOfExternalTemperatures
      && t.externalTemperatures == s.externalTemperatures
  {
    var r := StatusReply(s);
    var e := s.externalTemperatures;
    Int16FieldRoundTrip(r, 16, e[0]);
    Int16FieldRoundTrip(r, 18, e[1]);
    Int16FieldRoundTrip(r, 20, e[2]);
    Int16FieldRoundTrip(r, 22, e[3]);
    assert e == [e[0], e[1], e[2], e[3]];
  }

  lemma {:induction false} TemperaturesRoundTrip(s: Status)
    requires Representable(s)
    ensures var t := StatusOf(StatusReply(s));
      t.temperature == s.temperature && t.dewpoint == s.dewpoint
  {
    var r := StatusReply(s);
    Int16FieldRoundTrip(r, 24, s.temperature);
    Int16FieldRoundTrip(r, 26, s.dewpoint);
  }

  lemma {:induction false} SensorsRoundTrip(s: Status)
    requires Representable(s)
    ensures var t := StatusOf(StatusReply(s));
      && t.humidity == s.humidity && t.pressure == s.pressure && t.skyQuality == s.skyQuality
      && t.skyTemperature == s.skyTemperature && t.skyTemperatureAmbient == s.skyTemperatureAmbient
      && t.pthPresent == s.pthPresent && t.skyQualityPresent == s.skyQualityPresent
      && t.skyTemperaturePresent == s.skyTemperaturePresent
  {
    var r := StatusReply(s);
    Int16FieldRoundTrip(r, 29, s.pressure);
    Int16FieldRoundTrip(r, 32, s.skyTemperature);
    Int16FieldRoundTrip(r, 34, s.skyTemperatureAmbient);
  }

  lemma {:induction false} FrequencyRoundTrip(s: Status)
    requires Representable(s)
    ensures StatusOf(StatusReply(s)).skyQualityFreq == s.skyQualityFreq
  {
    var r := StatusReply(s);
    var w := WriteInt32(s.skyQualityFreq);
    Int32RoundTrip(s.skyQualityFreq);
    assert r[39] == w[0] && r[40] == w[1] && r[41] == w[2] && r[42] == w[3];
  }

  /** Every status the wire format can carry is read back exactly. */
  lemma {:induction false} StatusRoundTrip(s: Status)
    requires Representable(s)
    ensures StatusOf(StatusReply(s)) == s
  {
    FlagsRoundTrip(s);
    PerOutputRoundTrip(s);
    ExternalTemperaturesRoundTrip(s);
    TemperaturesRoundTrip(s);
    SensorsRoundTrip(s);
    FrequencyRoundTrip(s);
  }
}
