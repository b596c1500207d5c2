# KomaHub device protocol, modelled in Dafny

KomaHub is a USB-HID power-distribution and sensor hub. This project models
its device protocol layer. The host client, class `KomaHubHID`, builds
64-byte request reports and hands them to the raw HID driver. It reads the
device's 64-byte replies back and decodes them into factory settings, one
output's settings, or the status block. The firmware header fixes the
command codes and the payload structs that both sides agree on.

Modules, one per file:

- `Bytes` (`bytes.dfy`): bytes as integers 0..255, their bits, and C#'s `(byte)` cast, `&` and `1 << i`.
- `UsbCommands` (`usb_commands.dfy`): the `USBCommand` enumeration and the request payload structs of the firmware header, with their byte layouts.
- `Fields` (`fields.dfy`): the client's fixed-point readers `readInt16Float` and `readUInt32Float`, the 16-byte name field, and `TrimEnd('\0')`.
- `Domain` (`domain.dfy`): factory settings, output configuration and status as values.
- `Requests` (`requests.dfy`): the report each public operation builds. Each builder fills a fresh zeroed array in place and is proved to produce the report the firmware expects.
- `Responses` (`responses.dfy`): the decoders, paired with the reply layout a device fills, with round-trip proofs.
- `RawHid` (`raw_hid.dfy`): the native `rawhid_*` functions as a scripted driver. Open, send and receive each consume the next scripted reply; close only logs the call. Every call is logged.
- `Session` (`session.dfy`): class `KomaHubHid`, with `openDevice`, `closeDevice`, the private `send`/`recv` and the public operations.
  - Each method is proved to follow a function over the observable state. That state is the Connected flag, the number of "Communications Timeout" message boxes shown, and the driver's call log, script and last error.
  - The lemmas about those functions state idempotence, the calls each operation makes, and the end-to-end reads.

Quantities the client shows as `x / 10.0f` are kept as the integer `x`, in tenths.

On timeouts and errors the client behaves as follows:

- A send or receive timeout shows a message box and then carries on. A
  timed-out send is still followed by the receive, and a timed-out receive
  leaves the zeroed buffer to be decoded (`Session.TimeoutReadsZeroStatus`).
  No timeout is reported to the caller.
- Only `-1` from the driver throws. Any other return code, including other
  negative values, counts as success.
- `send` and `recv` do not check `Connected`.

## Model

| member | source | states |
|---|---|---|
| Bytes.ByteOf | software/KomaHub/KomaHub/KomaHubHID.cs:68 | C#'s unchecked `(byte)x` keeps in-range values and is congruent to x modulo 256 |
| Bytes.Zeros | software/KomaHub/KomaHub/KomaHubHID.cs:65 | a fresh `byte[n]` has length n and every element zero |
| Bytes.ShiftIsPow2 | software/KomaHub/KomaHub/KomaHubHID.cs:156 | shifting a one left by i places, for i below 8, gives 2^i |
| Bytes.Mask | software/KomaHub/KomaHub/KomaHubHID.cs:156 | the mask `1 << i`, computed as a shift, is 2^i |
| Bytes.MaskTest | software/KomaHub/KomaHub/KomaHubHID.cs:156-157 | the mask test `(b & (1 << i)) != 0` holds exactly when bit i of b is set |
| Bytes.FlipBitOnly | software/KomaHub/KomaHub/KomaHubHID.cs:156-157 | inverting bit j of a byte changes bit j and no other bit |
| Bytes.PackBits | software/KomaHub/KomaHub/KomaHubHID.cs:156-157 | a byte can carry any six flags in bits 0..5 with the other bits clear |
| UsbCommands.Code | firmware/src/USBCommands.h:27-42 | the enumerator values; codes below 0x10 are the reads and END, 0x10-0x1F the output changes, 0xF0 and up the firmware's diagnostics and reset |
| UsbCommands.CommandOf | firmware/src/USBCommands.h:27-42 | a code byte selects the command whose value it is, and selects none when no enumerator has that value |
| UsbCommands.CommandOfCode | firmware/src/USBCommands.h:27-42 | every command is recovered from its code |
| UsbCommands.CodesDistinct | firmware/src/USBCommands.h:27-42 | no two enumerators share a value |
| UsbCommands.GetOutputSettingsCommand.Serialize | firmware/src/USBCommands.h:50-52 | the struct is one byte, the output number |
| UsbCommands.SetRelayCommand.Serialize | firmware/src/USBCommands.h:60-63 | the struct is two bytes, output number then enabled |
| UsbCommands.SetPwmDutyCommand.Serialize | firmware/src/USBCommands.h:65-68 | the struct is two bytes, output number then duty |
| UsbCommands.ResetFuseCommand.Serialize | firmware/src/USBCommands.h:70-72 | the struct is one byte, the output number |
| UsbCommands.ConfigureOutputCommand.Serialize | firmware/src/USBCommands.h:74-79 | the struct is 19 bytes: number, type, fuse current at offsets 0, 1, 2, then the 16-byte name |
| UsbCommands.ParseConfigureOutput | firmware/src/USBCommands.h:74-79 | laying the struct over a payload yields a struct whose bytes are the first 19 payload bytes |
| UsbCommands.ConfigureOutputRoundTrip | firmware/src/USBCommands.h:74-79 | laying the struct over its own bytes gives the struct back |
| UsbCommands.PayloadSize | firmware/src/USBCommands.h:44-79 | every payload struct is at most 19 bytes and fits a 64-byte report after the two header bytes; FactoryResetCommand is three `uint16_t` |
| UsbCommands.PayloadSizeIsStructSize | firmware/src/USBCommands.h:50-79 | the size of each command's payload is the length of the struct it carries, for GetOutputSettings, SetRelay, SetPwmDuty, ResetFuse and ConfigureOutput |
| Fields.LeUInt16 | software/KomaHub/KomaHub/KomaHubHID.cs:102-103 | `(hi << 8) + lo` is an unsigned 16-bit value |
| Fields.LeUInt16Bytes | software/KomaHub/KomaHub/KomaHubHID.cs:102-103 | `>> 8` and `& 0xFF` of the word give back the high and low bytes |
| Fields.ReadInt16 | software/KomaHub/KomaHub/KomaHubHID.cs:185-191 | `readInt16Float` lies in the int16 range and is negative exactly when the high byte's top bit is set |
| Fields.ReadInt16TwosComplement | software/KomaHub/KomaHub/KomaHubHID.cs:185-191 | the reading is the unsigned word, less 65536 when the high byte is 0x80 or more |
| Fields.Int16RoundTrip | software/KomaHub/KomaHub/KomaHubHID.cs:185-191 | every int16 value written as two's-complement little-endian bytes reads back unchanged |
| Fields.Int16Canonical | software/KomaHub/KomaHub/KomaHubHID.cs:185-191 | every byte pair is the encoding of the value it reads as, so the reader is a bijection onto the int16 range |
| Fields.Int16Extremes | software/KomaHub/KomaHub/KomaHubHID.cs:185-191 | (0xFF,0x7F) reads 32767, (0x00,0x80) reads -32768, (0,0) reads 0 |
| Fields.LeUInt32 | software/KomaHub/KomaHub/KomaHubHID.cs:193-197 | the unsigned little-endian reading of four bytes is below 2^32 |
| Fields.WrapInt32 | software/KomaHub/KomaHub/KomaHubHID.cs:195 | C#'s unchecked int arithmetic yields the int32 value congruent to the exact result modulo 2^32 |
| Fields.ReadUInt32 | software/KomaHub/KomaHub/KomaHubHID.cs:193-197 | `readUInt32Float` lies in the int32 range; it is the unsigned reading while the top byte is below 0x80 and that reading minus 2^32 otherwise |
| Fields.ReadUInt32IsIntArithmetic | software/KomaHub/KomaHub/KomaHubHID.cs:195 | the reader equals the 32-bit wrap of the client's sum `a + b*256 + c*256*256 + d*256*256*256` |
| Fields.ReadUInt32Wraps | software/KomaHub/KomaHub/KomaHubHID.cs:193-197 | a top byte of 0x80 reads as -2^31, all 0xFF bytes read as -1, and 0x7FFFFFFF reads as itself |
| Fields.Int32RoundTrip | software/KomaHub/KomaHub/KomaHubHID.cs:193-197 | every int32 value written little-endian reads back unchanged |
| Fields.PadName | software/KomaHub/KomaHub/KomaHubHID.cs:231-234 | the name field is 16 bytes: the name's byte i where it has one, zero beyond its end |
| Fields.TrimNuls | software/KomaHub/KomaHub/KomaHubHID.cs:216 | `TrimEnd('\0')` gives a prefix that does not end in NUL, and everything cut off is NUL |
| Fields.TrimNulsUnique | software/KomaHub/KomaHub/KomaHubHID.cs:216 | those three properties determine the trimmed result |
| Fields.TrimPadName | software/KomaHub/KomaHub/KomaHubHID.cs:214-216 | trimming the padded name field gives the name cut to 16 bytes, less its trailing NULs |
| Fields.NameRoundTrip | software/KomaHub/KomaHub/KomaHubHID.cs:214-216 | a name of at most 16 bytes that does not end in NUL survives padding and trimming unchanged |
| Requests.ClientCodesMatchFirmware | software/KomaHub/KomaHub/KomaHubHID.cs:27-37 | each of the client's command constants equals the firmware enumerator of the same name |
| Requests.Request | software/KomaHub/KomaHub/KomaHubHID.cs:65-69 | a request is 64 bytes: 'K' at byte 0, the code at byte 1, the payload from byte 2, zeros after it |
| Requests.BuildSetRelay | software/KomaHub/KomaHub/KomaHubHID.cs:63-69 | setRelay's report is the SetRelayCommand request, with the number cast to a byte and enabled as 1 or 0 |
| Requests.BuildResetFuse | software/KomaHub/KomaHub/KomaHubHID.cs:77-82 | resetFuse's report is the ResetFuseCommand request |
| Requests.BuildSetPwmDuty | software/KomaHub/KomaHub/KomaHubHID.cs:242-248 | setPwmDuty's report is the SetPwmDutyCommand request; the duty is cast to a byte unchecked |
| Requests.BuildConfigureOutput | software/KomaHub/KomaHub/KomaHubHID.cs:222-234 | configureOutput's report is the ConfigureOutputCommand request whose name field is the padded name |
| Requests.CopyName | software/KomaHub/KomaHub/KomaHubHID.cs:230-234 | the name loop fills bytes 5..20 with the padded name and leaves every other byte as it was |
| Requests.ConfigureOutputReportBytes | software/KomaHub/KomaHub/KomaHubHID.cs:224-234 | a 64-byte report with that header, that name field and a zero tail is exactly the configureOutput request |
| Requests.BuildFactorySettingsQuery | software/KomaHub/KomaHub/KomaHubHID.cs:92-95 | readFactorySettings sends a GetFactorySettings request with no payload |
| Requests.BuildStatusQuery | software/KomaHub/KomaHub/KomaHubHID.cs:139-142 | readStatus sends a GetStatus request with no payload |
| Requests.BuildOutputQuery | software/KomaHub/KomaHub/KomaHubHID.cs:201-205 | readOutput sends a GetOutputSettingsCommand request for the output number |
| Requests.ConfigureOutputLayout | software/KomaHub/KomaHub/KomaHubHID.cs:227-234 | the firmware reads the number, type and fuse current at bytes 2, 3, 4 and the name field at bytes 5..20; a long name is cut to its first 16 bytes, and bytes 21..63 are zero |
| Requests.PwmDutyReachesFirmware | firmware/src/USBCommands.h:65-68 | a duty within the documented 0..100 arrives in the SetPwmDutyCommand unchanged |
| Responses.FactorySettingsOf | software/KomaHub/KomaHub/KomaHubHID.cs:101-104 | firmware version and serial number are 16-bit words whose high bytes are bytes 1 and 3 and whose low bytes are bytes 0 and 2 |
| Responses.FactorySettingsRoundTrip | software/KomaHub/KomaHub/KomaHubHID.cs:101-104 | any pair of 16-bit words sent little-endian is read back exactly |
| Responses.OutputOf | software/KomaHub/KomaHub/KomaHubHID.cs:212-219 | the name is the 16-byte field with trailing NULs trimmed, the fuse current is byte 16 and the type is byte 17 |
| Responses.OutputRoundTrip | software/KomaHub/KomaHub/KomaHubHID.cs:199-234 | an output configured and then read back from a device that stores the command keeps its name, fuse current and type |
| Responses.Flags | software/KomaHub/KomaHub/KomaHubHID.cs:154-157 | a bitmask byte carries six flags: flag i is bit i |
| Responses.StatusOf | software/KomaHub/KomaHub/KomaHubHID.cs:149-182 | the status read at the fixed offsets of a reply; every decoded status is one the wire format can carry (lengths, byte ranges, int16 and int32 ranges) |
| Responses.TestBit | software/KomaHub/KomaHub/KomaHubHID.cs:156-157 | the client's mask test reads bit i |
| Responses.DecodeOutputs | software/KomaHub/KomaHub/KomaHubHID.cs:150-160 | the readStatus loop yields the relay and fuse flags of bytes 0 and 1, the duties of bytes 2..7 and the currents of bytes 9..14 |
| Responses.DecodeStatus | software/KomaHub/KomaHub/KomaHubHID.cs:149-182 | the status readStatus builds is the status read from the reply at the fixed offsets, and its per-output entries are the bits and bytes named above |
| Responses.ZeroStatus | software/KomaHub/KomaHub/KomaHubHID.cs:149-182 | an all-zero reply reads as nothing open, nothing blown, every reading zero and no sensor present |
| Responses.ZeroOutputs | software/KomaHub/KomaHub/KomaHubHID.cs:150-160 | an all-zero reply has every relay closed, no fuse blown, and zero duties and currents |
| Responses.FlagsOfZero | software/KomaHub/KomaHub/KomaHubHID.cs:156-157 | a zero bitmask byte sets no flag |
| Responses.ZeroReadings | software/KomaHub/KomaHub/KomaHubHID.cs:163-180 | an all-zero reply reads zero for every 16-bit and 32-bit sensor field |
| Responses.RelayFlagsIndependent | software/KomaHub/KomaHub/KomaHubHID.cs:156-157 | flipping bit j of byte 0 flips relay flag j and leaves every other relay flag and every fuse flag as it was |
| Responses.FuseFlagsIndependent | software/KomaHub/KomaHub/KomaHubHID.cs:156-157 | flipping bit j of byte 1 flips fuse flag j and leaves every other fuse flag and every relay flag as it was |
| Responses.FlagsRoundTrip | software/KomaHub/KomaHub/KomaHubHID.cs:156-157 | any six relay flags and six fuse flags packed into bytes 0 and 1 read back exactly |
| Responses.PerOutputRoundTrip | software/KomaHub/KomaHub/KomaHubHID.cs:158-161 | duties, currents and the input voltage read back exactly from bytes 2..14 |
| Responses.Int16FieldRoundTrip | software/KomaHub/KomaHub/KomaHubHID.cs:185-191 | a 16-bit field written with v at any offset reads back as v |
| Responses.ExternalTemperaturesRoundTrip | software/KomaHub/KomaHub/KomaHubHID.cs:163-167 | the probe count and the four probe temperatures read back exactly |
| Responses.TemperaturesRoundTrip | software/KomaHub/KomaHub/KomaHubHID.cs:169-170 | temperature and dew point read back exactly |
| Responses.SensorsRoundTrip | software/KomaHub/KomaHub/KomaHubHID.cs:171-178 | humidity, pressure, sky quality, the sky temperatures and the three presence flags read back exactly |
| Responses.FrequencyRoundTrip | software/KomaHub/KomaHub/KomaHubHID.cs:179 | any int32 sky-quality frequency reads back exactly |
| Responses.StatusRoundTrip | software/KomaHub/KomaHub/KomaHubHID.cs:149-182 | every status the wire format can carry is read back exactly from the reply that reports it |
| RawHid.Filled | software/KomaHub/KomaHub/KomaHubHID.cs:16 | a receive that reports bytes read puts the delivered bytes at the front of the buffer; a timeout or error leaves it as it was |
| RawHid.Driver.constructor | software/KomaHub/KomaHub/KomaHubHID.cs:13-20 | a fresh driver has an empty log, its script and no error |
| RawHid.Driver.Open | software/KomaHub/KomaHub/KomaHubHID.cs:14 | rawhid_open is logged with its arguments and returns the next scripted count and error |
| RawHid.Driver.Send | software/KomaHub/KomaHub/KomaHubHID.cs:18 | rawhid_send is logged with the report it was given and returns the next scripted code and error |
| RawHid.Driver.Recv | software/KomaHub/KomaHub/KomaHubHID.cs:16 | rawhid_recv is logged, returns the next scripted code and error, and fills the buffer as Filled says |
| RawHid.Driver.Close | software/KomaHub/KomaHub/KomaHubHID.cs:20 | rawhid_close is logged and changes nothing else |
| Session.OutcomeOf | software/KomaHub/KomaHub/KomaHubHID.cs:110-118 | return code 0 is a timeout, -1 an error, and every other code a success, each in both directions |
| Session.OpenSpec | software/KomaHub/KomaHub/KomaHubHID.cs:45-52 | openDevice as a function of the session state: it returns the new Connected flag and shows no alert |
| Session.CloseSpec | software/KomaHub/KomaHub/KomaHubHID.cs:54-61 | closeDevice as a function of the session state: the session ends disconnected, with script, error and alerts unchanged |
| Session.SendSpec | software/KomaHub/KomaHub/KomaHubHID.cs:107-119 | send as a function of the session state: Connected is unchanged and it throws exactly when the driver returns -1 |
| Session.RecvSpec | software/KomaHub/KomaHub/KomaHubHID.cs:121-135 | recv as a function of the session state: Connected is unchanged and it throws exactly when the driver returns -1 |
| Session.QuerySpec | software/KomaHub/KomaHub/KomaHubHID.cs:96-100 | send then recv into a zeroed 64-byte buffer: Connected is unchanged and a result is a whole 64-byte report |
| Session.ReadFactorySettingsSpec | software/KomaHub/KomaHub/KomaHubHID.cs:90-105 | readFactorySettings as a function of the session state: both words it returns fit 16 bits |
| Session.ReadStatusSpec | software/KomaHub/KomaHub/KomaHubHID.cs:137-183 | readStatus as a function of the session state: the status it returns is one the wire format can carry |
| Session.ReadOutputSpec | software/KomaHub/KomaHub/KomaHubHID.cs:199-220 | readOutput as a function of the session state: the name it returns fits the 16-byte field and the fuse current a byte |
| Session.OpenIdempotent | software/KomaHub/KomaHub/KomaHubHID.cs:45-52 | openDevice returns Connected; when already connected it changes nothing; after success a second call changes nothing; otherwise it makes one rawhid_open(1, 0x1209, 0x4242, -1, -1) and connects exactly when the count is nonzero |
| Session.CloseIdempotent | software/KomaHub/KomaHub/KomaHubHID.cs:54-61 | closeDevice always leaves the session disconnected, makes one rawhid_close(0) when connected, is a no-op when disconnected, and is idempotent |
| Session.CommandCalls | software/KomaHub/KomaHub/KomaHubHID.cs:107-119 | a command makes exactly one driver call, a send of its 64-byte report with a 100 ms timeout; it shows one alert on a timeout and throws the driver's last error exactly on -1 |
| Session.QueryCalls | software/KomaHub/KomaHub/KomaHubHID.cs:96-100 | a query sends, then receives with a 500 ms timeout unless the send threw; it succeeds exactly when neither call returned -1, with a 64-byte result and one alert per timeout |
| Session.TimeoutReadsZeroStatus | software/KomaHub/KomaHub/KomaHubHID.cs:121-135 | a timed-out receive leaves the zeroed buffer, which readStatus decodes |
| Session.ReadStatusEndToEnd | software/KomaHub/KomaHub/KomaHubHID.cs:137-182 | against a device that replies with the report of s, readStatus returns s |
| Session.ReadFactorySettingsEndToEnd | software/KomaHub/KomaHub/KomaHubHID.cs:90-105 | against a device that replies with the two words of f, readFactorySettings returns f |
| Session.ConfigureThenReadOutput | software/KomaHub/KomaHub/KomaHubHID.cs:199-240 | configureOutput then readOutput, against a device that stores and reports the command, returns the configured output |
| Session.KomaHubHid.constructor | software/KomaHub/KomaHub/KomaHubHID.cs:39-43 | a new session is disconnected and has shown no alert |
| Session.KomaHubHid.OpenDevice | software/KomaHub/KomaHub/KomaHubHID.cs:45-52 | openDevice follows OpenSpec |
| Session.KomaHubHid.CloseDevice | software/KomaHub/KomaHub/KomaHubHID.cs:54-61 | closeDevice follows CloseSpec |
| Session.KomaHubHid.Send | software/KomaHub/KomaHub/KomaHubHID.cs:107-119 | send follows SendSpec: one rawhid_send; a timeout adds an alert and carries on; -1 throws Win32Exception with the last error |
| Session.KomaHubHid.Recv | software/KomaHub/KomaHub/KomaHubHID.cs:121-135 | recv follows RecvSpec and leaves the buffer filled by the driver |
| Session.KomaHubHid.Query | software/KomaHub/KomaHub/KomaHubHID.cs:92-100 | send followed by recv into a fresh zeroed report follows QuerySpec |
| Session.KomaHubHid.SetRelay | software/KomaHub/KomaHub/KomaHubHID.cs:63-75 | setRelay is one send of the SetRelayCommand report |
| Session.KomaHubHid.ResetFuse | software/KomaHub/KomaHub/KomaHubHID.cs:77-88 | resetFuse is one send of the ResetFuseCommand report |
| Session.KomaHubHid.ConfigureOutput | software/KomaHub/KomaHub/KomaHubHID.cs:222-240 | configureOutput is one send of the ConfigureOutputCommand report |
| Session.KomaHubHid.SetPwmDuty | software/KomaHub/KomaHub/KomaHubHID.cs:242-253 | setPwmDuty is one send of the SetPwmDutyCommand report |
| Session.KomaHubHid.ReadFactorySettings | software/KomaHub/KomaHub/KomaHubHID.cs:90-105 | readFactorySettings is the query followed by the factory-settings decoder |
| Session.KomaHubHid.ReadStatus | software/KomaHub/KomaHub/KomaHubHID.cs:137-183 | readStatus is the query followed by the status decoder |
| Session.KomaHubHid.ReadOutput | software/KomaHub/KomaHub/KomaHubHID.cs:199-220 | readOutput is the query followed by the output decoder |

## Left out

- Floating point: every `x / 10.0f` value is kept as the integer x, in tenths. Rounding of `float` is not modelled.
- Responses.FrequencyRoundTrip, Responses.StatusRoundTrip and Session.ReadStatusEndToEnd hold in tenths only. `readUInt32Float` converts the `int` to a `float` before dividing, so sky-quality frequencies whose magnitude exceeds 2^24 can round to the same `float`. The int16 and byte fields stay distinct after `/ 10.0f`.
- ConfigureOutput: the fuse current is the integer number of tenths and goes through `(byte)` unchecked. The float product `fuseCurrent*10` and its conversion to an integer are not modelled.
- UTF-8: output names are their UTF-8 byte sequences. `Encoding.UTF8.GetBytes`/`GetString` are not modelled, including the replacement of a multi-byte character cut at byte 16.
- `KomahubOutput.OutputType`: the enum cast does not validate, so the type is kept as the raw byte.
- The `lock (hubLock)` blocks and concurrency: the model is sequential. Strict send/recv pairing is stated per operation by QueryCalls and CommandCalls.
- `MessageBox.Show("Communications Timeout")` is counted as an alert. No UI is modelled.
- `Marshal.GetLastWin32Error` is the driver's last scripted error, which nothing constrains. The `DllImport` declarations do not set `SetLastError = true`, so in the client the code thrown with Win32Exception is not the failing call's own error. The model does not pin that code down.
- The native teensyhidlib functions are not part of this model. They stand as a scripted driver. Open, send and receive each consume the next scripted reply; close only logs the call. An exhausted script answers with code 0: no device for open, a timeout for send and receive.
- RawHid.Driver.Recv: the `len` argument is logged but does not bound the bytes delivered. The delivered bytes are bounded by the buffer length.
- The firmware-only codes DUMPFACTORY, DUMPOUTPUTS, DUMPSTATE and FACTORYRESET appear in the command table, but no client operation uses them. The client's `Identify` constant has no client operation either.
- FactoryResetCommand is only sized, in PayloadSize, as three `uint16_t` fields. Its field layout is not modelled, since no client operation sends it.
- UpdateSettingsCommand is not modelled at all: no code of the command table carries it, and no client operation sends it.
- The firmware's handling of commands is not part of this model. Device behaviour enters only as the reply a lemma assumes.
- Responses.DecodeOutputs: the four fresh six-element arrays of the readStatus loop are kept as sequences updated index by index. They are not shared before the status is returned, so only in-place storage is lost.
- The Windows Forms application (`KomaHubForm.cs`) that calls the session is not modelled.
