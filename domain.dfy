/**
 * The values the KomaHub client exchanges with the device, with every
 * quantity the client shows as `x / 10.0f` kept as the integer x (tenths).
 */
module Domain {

  import opened Bytes

  /** Number of switched outputs on the hub. */
  const OutputCount := 6

  /** Number of external temperature probes a status reports. */
  const ExternalTemperatureCount := 4

  /** KomahubFactorySettings */
  datatype FactorySettings = FactorySettings(firmwareVersion: int, serialNumber: int)

  /**
   * KomahubOutput: the name as its UTF-8 bytes, the fuse current in tenths
   * of an ampere, and the output type as the byte the enum travels as.
   */
  datatype OutputConfig = OutputConfig(name: seq<Byte>, fuseCurrent: int, outputType: Byte)

  /**
   * KomahubStatus. Per-output sequences have one entry per output; currents
   * and voltages are in tenths of an ampere and a volt, temperatures and
   * dew point in tenths of a degree, pressure, sky quality and its frequency
   * in tenths of their units; humidity is a plain percentage.
   */
  datatype Status = Status(
    relayIsOpen: seq<bool>,
    fuseIsBlown: seq<bool>,
    pwmDuty: seq<Byte>,
    outputCurrent: seq<int>,
    inputVoltage: int,
    numberOfExternalTemperatures: int,
    externalTemperatures: seq<int>,
    temperature: int,
    dewpoint: int,
    humidity: int,
    pressure: int,
    skyQuality: int,
    skyTemperature: int,
    skyTemperatureAmbient: int,
    pthPresent: bool,
    skyQualityPresent: bool,
    skyTemperaturePresent: bool,
    skyQualityFreq: int)
}
